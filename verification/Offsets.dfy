/** Byte counters and ACKs: what the master counts against what a replica counts. */
module Offsets {
  import opened Text
  import opened Resp
  import opened ReplicaStream
  import opened Commands
  import opened Dispatcher
  import opened Propagation
  import opened ReplicaLink

  /** The bytes the master counts: those of the propagated commands, not those of its GETACKs. */
  function WriteBytes(ps: seq<Payload>): nat {
    if ps == [] then 0
    else WriteBytes(ps[..|ps| - 1]) + if IsGetAck(ps[|ps| - 1]) then 0 else |ToRESP(ps[|ps| - 1])|
  }

  lemma GetAckIsGetAck()
    ensures IsGetAck(GETACK) && |ToRESP(GETACK)| == 37 && AllPlain(GETACK)
  {
    hide ParseInt;
    assert Lower("REPLCONF") == "replconf" && Lower("GETACK") == "getack";
    BulkSize("REPLCONF");
    BulkSize("GETACK");
    BulkSize("*");
    assert GETACK[1..] == ["GETACK", "*"] && GETACK[1..][1..] == ["*"] && GETACK[1..][1..][1..] == [];
    assert |Header('*', 3)| == 2;
  }

  lemma BulkSize(item: string)
    requires |item| < 10
    ensures |Bulk(item)| == 6 + |item|
  {
    assert Dec(|item|) == [DigitChar(|item|)];
  }

  lemma WriteIsNotGetAck(p: Payload)
    requires IsWrite(NameOf(p))
    ensures !IsGetAck(p)
  {
    SetNames(NameOf(p));
  }

  /** The replica counts 37 bytes more for each GETACK. */
  lemma {:induction false} BytesSplit(ps: seq<Payload>)
    requires AllSendable(ps)
    ensures CommandBytes(ps) == WriteBytes(ps) + 37 * |Acks(ps)|
  {
    hide ToRESP, IsGetAck, IsWrite, NameOf, AllPlain, DecInt;
    if ps != [] {
      var last := ps[|ps| - 1];
      BytesSplit(ps[..|ps| - 1]);
      assert Sendable(last);
      GetAckIsGetAck();
      if last != GETACK { WriteIsNotGetAck(last); }
    }
  }

  lemma {:induction false} WriteBytesAppend(a: seq<Payload>, b: seq<Payload>)
    ensures WriteBytes(a + b) == WriteBytes(a) + WriteBytes(b)
    decreases b
  {
    hide ToRESP, IsGetAck;
    if b == [] {
      assert a + b == a;
    } else {
      WriteBytesAppend(a, b[..|b| - 1]);
      assert (a + b)[..|a + b| - 1] == a + b[..|b| - 1];
    }
  }

  lemma {:induction false} AcksAppend(a: seq<Payload>, b: seq<Payload>)
    ensures |Acks(a)| <= |Acks(a + b)|
    ensures Acks(a) <= Acks(a + b)
    decreases b
  {
    hide IsGetAck, DecInt, CommandBytes;
    if b == [] {
      assert a + b == a;
    } else {
      AcksAppend(a, b[..|b| - 1]);
      assert (a + b)[..|a + b| - 1] == a + b[..|b| - 1];
    }
  }

  /** Prefixes: both counters only grow along the command list. */
  lemma PrefixCounts(ps: seq<Payload>, i: nat, j: nat)
    requires i <= j <= |ps|
    ensures WriteBytes(ps[..i]) <= WriteBytes(ps[..j]) && |Acks(ps[..i])| <= |Acks(ps[..j])|
  {
    assert ps[..j] == ps[..i] + ps[i..j];
    WriteBytesAppend(ps[..i], ps[i..j]);
    AcksAppend(ps[..i], ps[i..j]);
  }

  lemma {:induction false} WritesHaveNoAcks(ps: seq<Payload>)
    requires AllWrites(ps)
    ensures Acks(ps) == [] && Writes(ps) == ps && WriteBytes(ps) == |Printed(ps)|
    decreases ps
  {
    hide ToRESP, IsGetAck, IsWrite, NameOf, DecInt, CommandBytes;
    if ps != [] {
      var first, rest := ps[0], ps[1..];
      assert AllWrites(rest) by { assert forall i :: 0 <= i < |rest| ==> rest[i] == ps[i + 1]; }
      WriteIsNotGetAck(first);
      WritesHaveNoAcks(rest);
      assert ps == [first] + rest;
      WriteBytesAppend([first], rest);
      assert [first][..0] == [];
      assert WriteBytes([first]) == |ToRESP(first)|;
      NoAcksAfter([first], rest);
    }
  }

  lemma {:induction false} NoAcksAfter(a: seq<Payload>, b: seq<Payload>)
    requires AllWrites(b)
    ensures Acks(a + b) == Acks(a)
    decreases b
  {
    hide ToRESP, IsGetAck, IsWrite, NameOf, DecInt, CommandBytes;
    if b == [] {
      assert a + b == a;
    } else {
      WriteIsNotGetAck(b[|b| - 1]);
      NoAcksAfter(a, b[..|b| - 1]);
      assert (a + b)[..|a + b| - 1] == a + b[..|b| - 1] && (a + b)[|a + b| - 1] == b[|b| - 1];
      assert Acks(a) + [] == Acks(a);
    }
  }

  /** The answer to the GETACK that follows these commands. */
  lemma AckAfter(ps: seq<Payload>)
    ensures Acks(ps + [GETACK]) == Acks(ps) + [["REPLCONF", "ACK", DecInt(CommandBytes(ps))]]
  {
    hide CommandBytes, DecInt;
    GetAckIsGetAck();
    assert (ps + [GETACK])[..|ps|] == ps;
  }
}
