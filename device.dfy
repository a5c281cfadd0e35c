/** The shared device record of a TCA/PCA954xA switch, the gate that lends it
    out to one operation at a time, and the per-part register semantics. */
module Device {
  import opened I2cBus
  import opened Types

  /** The three parts of the family: 8, 4 and 2 channels. The 4- and
      2-channel parts also report per-channel interrupt flags. */
  datatype Variant = Xca9548a | Xca9545a | Xca9543a

  function Channels(v: Variant): (n: nat)
    ensures 2 <= n <= 8
  {
    match v
    case Xca9548a => 8
    case Xca9545a => 4
    case Xca9543a => 2
  }

  predicate HasInterrupts(v: Variant) { !v.Xca9548a? }

  /** The control-register bits that exist on part `v`: one per channel. */
  function ValidMask(v: Variant): (m: Byte)
    ensures forall i: nat :: i < 8 ==> (Bit(m, i) <==> i < Channels(v))
  {
    match v
    case Xca9548a => 0xFF
    case Xca9545a => 0x0F
    case Xca9543a => 0x03
  }

  /** A control byte with the bits of channels the part lacks dropped: what
      the interrupt-capable parts write on a select and report as channel
      status. The 8-channel part uses the byte as it is. */
  function Masked(v: Variant, b: Byte): (r: Byte)
    ensures forall i: nat :: i < 8 ==> (Bit(r, i) <==> Bit(b, i) && i < Channels(v))
    ensures r & ValidMask(v) == r
    ensures b & ValidMask(v) == b ==> r == b
  {
    if HasInterrupts(v) then b & ValidMask(v) else b
  }

  /** The upper nibble of the control register of an interrupt-capable part,
      bit `i` being the interrupt line of channel `i`. */
  function InterruptStatus(v: Variant, raw: Byte): (r: Byte)
    requires HasInterrupts(v)
    ensures forall i: nat :: i < 8 ==> (Bit(r, i) <==> i < Channels(v) && Bit(raw, i + 4))
    ensures r <= ValidMask(v)
  {
    (raw >> 4) & ValidMask(v)
  }

  /** The control register of an interrupt-capable part, as it reads back
      with channels `enabled` selected and interrupt lines `flags`. */
  function StatusRegister(v: Variant, enabled: Byte, flags: Byte): Byte
    requires HasInterrupts(v)
  {
    ((flags & ValidMask(v)) << 4) | Masked(v, enabled)
  }

  /** Reading the register back gives the selected channels and the flags. */
  lemma StatusRegisterRoundTrip(v: Variant, enabled: Byte, flags: Byte)
    requires HasInterrupts(v)
    ensures Masked(v, StatusRegister(v, enabled, flags)) == Masked(v, enabled)
    ensures InterruptStatus(v, StatusRegister(v, enabled, flags)) == flags & ValidMask(v)
  {
  }

  /** What one operation on the record did: the selected mask it left,
      the calls it put on the bus and what it returned to the caller. */
  datatype Step<T> = Step(mask: Byte, events: seq<Event>, result: Result<T>)

  /** The one-byte control write that selects `channels`. */
  function SelectWrite(address: Byte, channels: Byte): Event
  {
    WriteEvent(address, [channels])
  }

  /** Selecting channels on the record: one control write; the record
      remembers the mask only if the write went through. */
  function SelectStep(address: Byte, mask: Byte, channels: Byte, reply: Reply): (s: Step<()>)
    ensures s.events == [SelectWrite(address, channels)]
    ensures reply.Ack? ==> s.mask == channels && s.result == Ok(())
    ensures reply.Nak? ==> s.mask == mask && s.result == Err(I2C(reply.error))
  {
    Step(if reply.Ack? then channels else mask, [SelectWrite(address, channels)], Lift(reply))
  }

  /** The gate: a record already lent out refuses the operation without
      running it; otherwise the operation's own effect is the result. */
  function OnAcquired<T>(busy: bool, mask: Byte, body: Step<T>): (s: Step<T>)
    ensures busy ==> s.events == [] && s.mask == mask && s.result == Err(CouldNotAcquireDevice)
    ensures !busy ==> s == body
  {
    if busy then Step(mask, [], Err(CouldNotAcquireDevice)) else body
  }

  /** A call forwarded as it is, on whatever channels are selected. */
  function ForwardStep(mask: Byte, op: Event, reply: Reply): (s: Step<()>)
    ensures s.events == [op] && s.mask == mask
    ensures s.result.Ok? <==> reply.Ack?
  {
    Step(mask, [op], Lift(reply))
  }

  /** A one-byte read of the control register, decoded by `interrupts`
      (the interrupt nibble) or as the channel status. */
  function StatusStep(v: Variant, address: Byte, mask: Byte, reply: Reply, interrupts: bool): (s: Step<Byte>)
    requires interrupts ==> HasInterrupts(v)
    ensures s.events == [ReadEvent(address, 1)] && s.mask == mask
    ensures reply.Nak? ==> s.result == Err(I2C(reply.error))
    ensures reply.Ack? && !interrupts ==> s.result == Ok(Masked(v, reply.raw))
    ensures reply.Ack? && interrupts ==> s.result == Ok(InterruptStatus(v, reply.raw))
  {
    var result :=
      match reply
      case Nak(e) => Err(I2C(e))
      case Ack(raw) => Ok(if interrupts then InterruptStatus(v, raw) else Masked(v, raw));
    Step(mask, [ReadEvent(address, 1)], result)
  }

  /** The driver of one switch: the record it owns (bus, resolved address,
      last selected mask) and whether the record is currently lent out. */
  class Xca954xa {
    const variant: Variant
    const bus: Bus
    const address: Byte
    /** The mask most recently written to the control register. */
    var mask: Byte
    /** An operation holds the record. */
    var busy: bool

    /** The recorded mask never has bits of channels the part lacks. */
    ghost predicate Valid()
      reads this
    {
      Masked(variant, mask) == mask
    }

    /** The state after an operation is exactly the effect `s` on the
        state before it; the gate is free again iff it was free before. */
    twostate predicate Performed<T>(new s: Step<T>, new r: Result<T>)
      reads this, bus
    {
      && mask == s.mask
      && bus.trace == old(bus.trace) + s.events
      && r == s.result
      && busy == old(busy)
    }

    /** The answer the bus will give to the next call. */
    function NextReply(): Reply
      reads bus
    {
      bus.replies(|bus.trace|)
    }

    constructor (bus: Bus, addr: SlaveAddr, variant: Variant)
      ensures Valid() && !busy
      ensures this.bus == bus && this.variant == variant
      ensures address == Addr(addr, DEVICE_BASE_ADDRESS) && mask == 0
      ensures bus.trace == old(bus.trace)
    {
      this.variant := variant;
      this.bus := bus;
      address := Addr(addr, DEVICE_BASE_ADDRESS);
      mask := 0;
      busy := false;
    }

    /** Tear the driver down and hand back the bus it owned. */
    method Destroy() returns (b: Bus)
      ensures b == bus
    {
      b := bus;
    }

    /** Borrow the record; fails, changing nothing, if it is already lent. */
    method Acquire() returns (acquired: bool)
      modifies this`busy
      ensures acquired == !old(busy) && busy
    {
      acquired := !busy;
      busy := true;
    }

    /** Give the record back. */
    method Release()
      requires busy
      modifies this`busy
      ensures !busy
    {
      busy := false;
    }

    /** Select channels on the borrowed record: write the byte, then
        remember it if the write succeeded. */
    method SelectData(channels: Byte) returns (r: Result<()>)
      requires busy
      modifies this`mask, bus
      ensures Performed(SelectStep(address, old(mask), channels, old(NextReply())), r)
    {
      var reply := bus.Call(SelectWrite(address, channels));
      r := Lift(reply);
      if reply.Ack? {
        mask := channels;
      }
    }

    /** Select which channels are enabled; bits of channels the part lacks
        are dropped. */
    method SelectChannels(channels: Byte) returns (r: Result<()>)
      requires Valid()
      modifies this, bus
      ensures Valid()
      ensures Performed(OnAcquired(old(busy), old(mask),
                SelectStep(address, old(mask), Masked(variant, channels), old(NextReply()))), r)
    {
      var acquired := Acquire();
      if !acquired {
        return Err(CouldNotAcquireDevice);
      }
      r := SelectData(Masked(variant, channels));
      Release();
    }

    /** Read the control register and report the enabled channels. */
    method GetChannelStatus() returns (r: Result<Byte>)
      requires Valid()
      modifies this, bus
      ensures Valid()
      ensures Performed(OnAcquired(old(busy), old(mask),
                StatusStep(variant, address, old(mask), old(NextReply()), false)), r)
    {
      r := ReadStatus(false);
    }

    /** Read the control register and report the channels' interrupt lines. */
    method GetInterruptStatus() returns (r: Result<Byte>)
      requires Valid() && HasInterrupts(variant)
      modifies this, bus
      ensures Valid()
      ensures Performed(OnAcquired(old(busy), old(mask),
                StatusStep(variant, address, old(mask), old(NextReply()), true)), r)
    {
      r := ReadStatus(true);
    }

    /** Read the control register under the gate and decode it as channel
        status, or as interrupt status when `interrupts` is set. */
    method ReadStatus(interrupts: bool) returns (r: Result<Byte>)
      requires Valid() && (interrupts ==> HasInterrupts(variant))
      modifies this, bus
      ensures Valid()
      ensures Performed(OnAcquired(old(busy), old(mask),
                StatusStep(variant, address, old(mask), old(NextReply()), interrupts)), r)
    {
      var acquired := Acquire();
      if !acquired {
        return Err(CouldNotAcquireDevice);
      }
      var reply := bus.Call(ReadEvent(address, 1));
      if reply.Ack? {
        r := Ok(if interrupts then InterruptStatus(variant, reply.raw) else Masked(variant, reply.raw));
      } else {
        r := Err(I2C(reply.error));
      }
      Release();
    }

    /** Forward one call to the bus on the channels currently selected. */
    method Forward(op: Event) returns (r: Result<()>)
      requires Valid()
      modifies this, bus
      ensures Valid()
      ensures Performed(OnAcquired(old(busy), old(mask), ForwardStep(old(mask), op, old(NextReply()))), r)
    {
      var acquired := Acquire();
      if !acquired {
        return Err(CouldNotAcquireDevice);
      }
      var reply := bus.Call(op);
      r := Lift(reply);
      Release();
    }

    /** Forward a whole list of operations to `target` as one transaction. */
    method Transaction(target: Byte, operations: seq<Operation>) returns (r: Result<()>)
      requires Valid()
      modifies this, bus
      ensures Valid()
      ensures Performed(OnAcquired(old(busy), old(mask),
                ForwardStep(old(mask), TransactionEvent(target, operations), old(NextReply()))), r)
    {
      r := Forward(TransactionEvent(target, operations));
    }

    /** Forward a read of `len` bytes from `target`, with no reselect. */
    method Read(target: Byte, len: nat) returns (r: Result<()>)
      requires Valid()
      modifies this, bus
      ensures Valid()
      ensures Performed(OnAcquired(old(busy), old(mask),
                ForwardStep(old(mask), ReadEvent(target, len), old(NextReply()))), r)
    {
      r := Forward(ReadEvent(target, len));
    }

    /** Forward a write of `bytes` to `target`, with no reselect. */
    method Write(target: Byte, bytes: seq<Byte>) returns (r: Result<()>)
      requires Valid()
      modifies this, bus
      ensures Valid()
      ensures Performed(OnAcquired(old(busy), old(mask),
                ForwardStep(old(mask), WriteEvent(target, bytes), old(NextReply()))), r)
    {
      r := Forward(WriteEvent(target, bytes));
    }

    /** Forward a write of `bytes` then a read of `len` bytes at `target`,
        with no reselect. */
    method WriteRead(target: Byte, bytes: seq<Byte>, len: nat) returns (r: Result<()>)
      requires Valid()
      modifies this, bus
      ensures Valid()
      ensures Performed(OnAcquired(old(busy), old(mask),
                ForwardStep(old(mask), WriteReadEvent(target, bytes, len), old(NextReply()))), r)
    {
      r := Forward(WriteReadEvent(target, bytes, len));
    }
  }
}
