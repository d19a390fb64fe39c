/** The ACK listeners of running WAITs, as the event emitter keeps them. */
module WaitListeners {
  import opened Text

  /** The closure of one WAIT: the offset it captured, how many replicas it needs (None is NaN), and how many ACKs
      it has counted. */
  datatype Listener = Listener(captured: nat, required: Option<int>, count: nat)

  /** Offset None is NaN: every comparison with it is false. */
  predicate Reaches(captured: nat, ack: Option<int>) { ack.Some? && ack.value >= captured }

  function Hear(l: Listener, ack: Option<int>): Listener {
    if Reaches(l.captured, ack) then l.(count := l.count + 1) else l
  }

  /** The listener resolves when it counts this ACK and then has enough. */
  predicate Resolves(l: Listener, ack: Option<int>) {
    Reaches(l.captured, ack) && l.required.Some? && l.count + 1 >= l.required.value
  }

  function Unresolved(ls: seq<Listener>, ack: Option<int>): seq<Listener> {
    if ls == [] then []
    else (if Resolves(ls[0], ack) then [] else [Hear(ls[0], ack)]) + Unresolved(ls[1..], ack)
  }

  function Resolved(ls: seq<Listener>, ack: Option<int>): seq<Listener> {
    if ls == [] then []
    else (if Resolves(ls[0], ack) then [Hear(ls[0], ack)] else []) + Resolved(ls[1..], ack)
  }
}
