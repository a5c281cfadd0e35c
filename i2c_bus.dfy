/** The I²C transport that the switch driver owns and forwards to.
    The transport itself is an external collaborator: it is modelled as an
    object that records every call it receives (its trace) and answers the
    k-th call with a fixed but unknown reply. */
module I2cBus {

  type Byte = bv8

  /** Bit `i` (0 = least significant) of a byte. */
  predicate Bit(b: Byte, i: nat)
    requires i < 8
  {
    (b >> i) & 1 == 1
  }

  /** An opaque transport failure; the driver wraps it and never looks inside. */
  datatype BusError = BusError(code: nat)

  /** One sub-operation of a composite transaction. */
  datatype Operation = Read(len: nat) | Write(bytes: seq<Byte>)

  /** One call received by the transport, with the address it was sent to. */
  datatype Event =
    | WriteEvent(address: Byte, bytes: seq<Byte>)
    | ReadEvent(address: Byte, len: nat)
    | WriteReadEvent(address: Byte, bytes: seq<Byte>, len: nat)
    | TransactionEvent(address: Byte, operations: seq<Operation>)

  /** The transport's answer to one call: it completed (and, for a read,
      `raw` is the first byte it read), or it failed with an error. */
  datatype Reply = Ack(raw: Byte) | Nak(error: BusError)

  class Bus {
    /** Every call received so far, oldest first. */
    var trace: seq<Event>
    /** The answer the transport gives to its k-th call. */
    const replies: nat -> Reply

    constructor (replies: nat -> Reply)
      ensures trace == [] && this.replies == replies
    {
      trace := [];
      this.replies := replies;
    }

    /** Issue one call on the wire. */
    method Call(e: Event) returns (reply: Reply)
      modifies this
      ensures trace == old(trace) + [e]
      ensures reply == replies(|old(trace)|)
    {
      reply := replies(|trace|);
      trace := trace + [e];
    }
  }
}
