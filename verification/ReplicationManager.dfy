/** The replication manager as an object: the list of replica connections, the offset, and the ACK listeners. */
module ReplicationManagers {
  import opened Text
  import opened Resp
  import opened Commands
  import opened WaitListeners
  import Replication
  import ReplicaLink
  import Messages

  /** A connection: the bytes written to it so far. */
  class Socket {
    var writable: bool
    var written: string

    constructor ()
      ensures writable && written == ""
    {
      writable, written := true, "";
    }
  }

  /** `base` with `text` written after it n times. */
  function Appended(base: string, text: string, n: nat): string {
    if n == 0 then base else Appended(base, text, n - 1) + text
  }

  /** A connection that sent PSYNC twice is listed twice. */
  function Occurrences(sockets: seq<Socket>, s: Socket): nat {
    if sockets == [] then 0
    else Occurrences(sockets[..|sockets| - 1], s) + if sockets[|sockets| - 1] == s then 1 else 0
  }

  lemma {:induction false} DistinctOccursOnce(sockets: seq<Socket>, s: Socket)
    ensures Occurrences(sockets, s) > 0 <==> s in sockets
    ensures (forall i, j :: 0 <= i < j < |sockets| ==> sockets[i] != sockets[j]) ==> Occurrences(sockets, s) <= 1
  {
    if sockets != [] {
      var before, last := sockets[..|sockets| - 1], sockets[|sockets| - 1];
      DistinctOccursOnce(before, s);
      assert sockets == before + [last];
    }
  }

  /** The manager's fields, except the log. */
  datatype Board = Board(replicas: seq<Socket>, offset: nat, listeners: seq<Listener>, answered: seq<Listener>)

  class ReplicationManager {
    var replicas: seq<Socket>
    var masterReplOffset: nat
    var listeners: seq<Listener>  // running WAITs, in the order in which the emitter calls them
    var answered: seq<Listener>   // WAITs that have resolved, in order
    ghost var propagated: seq<Payload>  // every payload handed to Propagate

    constructor ()
      ensures replicas == [] && masterReplOffset == 0 && propagated == [] && listeners == [] && answered == []
    {
      replicas, masterReplOffset, propagated, listeners, answered := [], 0, [], [], [];
    }

    ghost function Sockets(): set<Socket>
      reads this
    {
      set s | s in replicas
    }

    ghost function ViewBoard(): Board
      reads this
    {
      Board(replicas, masterReplOffset, listeners, answered)
    }

    /** Every writable replica gets the command; the offset counts its bytes once. */
    method Propagate(payload: Payload)
      modifies this`masterReplOffset, this`propagated, Sockets()`written
      ensures propagated == old(propagated) + [payload]
      ensures masterReplOffset == old(masterReplOffset) + if replicas == [] then 0 else |ToRESP(payload)|
      ensures forall s :: s in replicas ==>
                s.written == Appended(old(s.written), ToRESP(payload), if s.writable then Occurrences(replicas, s) else 0)
    {
      hide ToRESP;
      propagated := propagated + [payload];
      if replicas == [] { return; }
      var commandAsRESP := ToRESP(payload);
      for i := 0 to |replicas|
        invariant masterReplOffset == old(masterReplOffset) && propagated == old(propagated) + [payload]
        invariant forall s :: s in replicas ==>
                    s.written == Appended(old(s.written), commandAsRESP, if s.writable then Occurrences(replicas[..i], s) else 0)
      {
        assert replicas[..i + 1][..i] == replicas[..i];
        if replicas[i].writable {
          replicas[i].written := replicas[i].written + commandAsRESP;
        }
      }
      assert replicas[..|replicas|] == replicas;
      masterReplOffset := masterReplOffset + |commandAsRESP|;
    }

    /** GETACK goes to every replica and is not counted in the offset. */
    method RequestAcks()
      modifies Sockets()`written
      ensures forall s :: s in replicas ==>
                s.written == Appended(old(s.written), ToRESP(ReplicaLink.GETACK), Occurrences(replicas, s))
    {
      hide ToRESP;
      var getAckCommand := ToRESP(["REPLCONF", "GETACK", "*"]);
      for i := 0 to |replicas|
        invariant forall s :: s in replicas ==>
                    s.written == Appended(old(s.written), getAckCommand, Occurrences(replicas[..i], s))
      {
        assert replicas[..i + 1][..i] == replicas[..i];
        replicas[i].written := replicas[i].written + getAckCommand;
      }
      assert replicas[..|replicas|] == replicas;
    }

    /** PSYNC: the full resync line, the RDB file, and from then on the connection is a replica. */
    method Psync(connection: Socket, replid: string, rdb: string)
      modifies this`replicas, connection`written
      ensures connection.written
           == old(connection.written) + Messages.Wire(Messages.FullResync(replid)) + Messages.Wire(Messages.Rdb(rdb))
      ensures replicas == old(replicas) + [connection]
    {
      hide Header, Dec;
      connection.written := connection.written + ("+FULLRESYNC " + replid + " 0\r\n");
      assert "+FULLRESYNC " + replid + " 0\r\n" == Messages.Wire(Messages.FullResync(replid));
      connection.written := connection.written + (Header('$', |rdb|) + CRLF + rdb);
      replicas := replicas + [connection];
    }

    /** The "ack" event: every listener registered by now hears the offset; those that have enough resolve and leave. */
    method ReceiveAck(offset: Option<int>)
      modifies this`listeners, this`answered
      ensures listeners == Unresolved(old(listeners), offset)
      ensures answered == old(answered) + Resolved(old(listeners), offset)
    {
      hide Unresolved, Resolved;
      var registered := listeners;
      listeners := [];
      assert registered[0..] == registered;
      for i := 0 to |registered|
        invariant listeners + Unresolved(registered[i..], offset) == Unresolved(registered, offset)
        invariant answered + Resolved(registered[i..], offset) == old(answered) + Resolved(registered, offset)
      {
        HearsNext(registered, i, offset);
        var l := registered[i];
        if offset.Some? && offset.value >= l.captured {
          l := l.(count := l.count + 1);
          if l.required.Some? && l.count >= l.required.value {
            answered := answered + [l];
          } else {
            listeners := listeners + [l];
          }
        } else {
          listeners := listeners + [l];
        }
      }
      NobodyListens(registered, offset);
      assert listeners + [] == listeners && answered + [] == answered;
    }

    /** WAIT: an immediate answer, or GETACKs and one more listener. */
    method WaitForAcks(required: Option<int>) returns (reply: Option<nat>)
      modifies this`listeners, Sockets()`written
      ensures if replicas == [] || masterReplOffset == 0 then
                reply == Some(|replicas|) && listeners == old(listeners) && forall s :: s in replicas ==> s.written == old(s.written)
              else
                && reply == None && listeners == old(listeners) + [Listener(masterReplOffset, required, 0)]
                && forall s :: s in replicas ==>
                     s.written == Appended(old(s.written), ToRESP(ReplicaLink.GETACK), Occurrences(replicas, s))
    {
      if |replicas| == 0 || masterReplOffset == 0 { return Some(|replicas|); }
      RequestAcks();
      listeners := listeners + [Listener(masterReplOffset, required, 0)];
      reply := None;
    }

    /** The timer of a running WAIT: it leaves and answers with what it has counted. */
    method WaitTimeout(k: nat) returns (reply: nat)
      requires k < |listeners|
      modifies this`listeners, this`answered
      ensures reply == old(listeners)[k].count
      ensures listeners == old(listeners)[..k] + old(listeners)[k + 1..] && answered == old(answered) + [old(listeners)[k]]
    {
      reply := listeners[k].count;
      listeners, answered := listeners[..k] + listeners[k + 1..], answered + [listeners[k]];
    }
  }

  lemma HearsNext(ls: seq<Listener>, i: nat, ack: Option<int>)
    requires i < |ls|
    ensures Unresolved(ls[i..], ack) == (if Resolves(ls[i], ack) then [] else [Hear(ls[i], ack)]) + Unresolved(ls[i + 1..], ack)
    ensures Resolved(ls[i..], ack) == (if Resolves(ls[i], ack) then [Hear(ls[i], ack)] else []) + Resolved(ls[i + 1..], ack)
  {
    assert ls[i..][0] == ls[i] && ls[i..][1..] == ls[i + 1..];
  }

  lemma NobodyListens(ls: seq<Listener>, ack: Option<int>)
    ensures Unresolved(ls[|ls|..], ack) == [] && Resolved(ls[|ls|..], ack) == []
  {
  }

  function ListenersOf(waits: seq<Replication.Wait>): seq<Listener> {
    seq(|waits|, i requires 0 <= i < |waits| => waits[i].listener)
  }

  /** The manager's listeners are those of the WAITs of the whole system, whoever sends the ACK. */
  lemma {:induction false} SystemListens(waits: seq<Replication.Wait>, who: Option<nat>, ack: Option<int>)
    ensures ListenersOf(Replication.StillWaiting(waits, who, ack)) == Unresolved(ListenersOf(waits), ack)
    decreases waits
  {
    hide Reaches, Replication.Vote, Hear, Resolves;
    if waits != [] {
      SystemListens(waits[1..], who, ack);
      assert ListenersOf(waits)[1..] == ListenersOf(waits[1..]);
      VoteIsHeard(waits[0], who, ack);
      ListenersOfCons(Replication.Vote(waits[0], who, ack), Replication.StillWaiting(waits[1..], who, ack));
    }
  }

  lemma {:induction false} SystemAnswers(waits: seq<Replication.Wait>, who: Option<nat>, ack: Option<int>)
    ensures ListenersOf(Replication.NowResolved(waits, who, ack)) == Resolved(ListenersOf(waits), ack)
    decreases waits
  {
    hide Reaches, Replication.Vote, Hear, Resolves;
    if waits != [] {
      SystemAnswers(waits[1..], who, ack);
      assert ListenersOf(waits)[1..] == ListenersOf(waits[1..]);
      VoteIsHeard(waits[0], who, ack);
      ListenersOfCons(Replication.Vote(waits[0], who, ack), Replication.NowResolved(waits[1..], who, ack));
    }
  }

  lemma VoteIsHeard(w: Replication.Wait, who: Option<nat>, ack: Option<int>)
    ensures Replication.Vote(w, who, ack).listener == Hear(w.listener, ack)
  {
  }

  lemma ListenersOfCons(w: Replication.Wait, rest: seq<Replication.Wait>)
    ensures ListenersOf([w] + rest) == [w.listener] + ListenersOf(rest) && ListenersOf([] + rest) == ListenersOf(rest)
  {
    assert [] + rest == rest;
  }
}
