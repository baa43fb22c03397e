/** The queue channel both services talk to, as the two processes see it.

    The broker itself is an external collaborator; this module keeps only the
    part of its contract the services rely on: a named queue of opaque
    message bodies, delivery of at most one unacknowledged message at a time
    to the consumer (prefetch 1), positive acknowledgement (the message is
    removed for good) and negative acknowledgement with requeue (the message
    goes back to the queue, behind the messages already waiting). */
module Transport {

  datatype Option<+T> = None | Some(value: T)

  /** A message body: the identifier string the producer generated. */
  type Msg = string

  class Channel {
    /** Messages waiting in the queue; the head is the next one delivered. */
    var ready: seq<Msg>
    /** The delivered but not yet settled message, if any. With prefetch 1
        there is at most one, so a slot is enough. */
    var unacked: Option<Msg>
    /** Messages removed for good by `ack`, in the order they were acked. */
    var acked: seq<Msg>

    constructor (initial: seq<Msg>)
      ensures ready == initial && unacked == None && acked == []
    {
      ready := initial;
      unacked := None;
      acked := [];
    }

    /** `sendToQueue`: publish one message at the back of the queue. */
    method SendToQueue(m: Msg)
      modifies this
      ensures ready == old(ready) + [m]
      ensures unacked == old(unacked) && acked == old(acked)
    {
      ready := ready + [m];
    }

    /** The broker's delivery to a consumer with prefetch 1: nothing is
        delivered while a message is still unacknowledged or the queue is
        empty; otherwise the head moves into the unacked slot. */
    method Deliver() returns (d: Option<Msg>)
      modifies this
      ensures old(unacked).Some? || old(ready) == [] ==>
                d == None && ready == old(ready) && unacked == old(unacked)
      ensures old(unacked).None? && old(ready) != [] ==>
                d == Some(old(ready)[0]) && unacked == d && ready == old(ready)[1..]
      ensures acked == old(acked)
    {
      if unacked.None? && ready != [] {
        d := Some(ready[0]);
        assert ready == [ready[0]] + ready[1..];
        ready := ready[1..];
        unacked := d;
      } else {
        d := None;
      }
    }

    /** `ack(message)`: the delivered message is removed for good. */
    method Ack(m: Msg)
      requires unacked == Some(m)
      modifies this
      ensures unacked == None && ready == old(ready) && acked == old(acked) + [m]
    {
      unacked := None;
      acked := acked + [m];
    }

    /** `nack(message, false, true)`: the delivered message is not
        acknowledged and is requeued behind the waiting messages. */
    method Nack(m: Msg)
      requires unacked == Some(m)
      modifies this
      ensures unacked == None && ready == old(ready) + [m] && acked == old(acked)
    {
      unacked := None;
      ready := ready + [m];
    }
  }
}
