/** The earlier, mask-less driver for the TCA9548A and PCA9548A: it owns the
    bus directly, keeps no selected-channel state and has no gate. */
module Legacy {
  import opened I2cBus
  import Types

  /** Errors of the earlier driver: only a wrapped transport error. */
  datatype Error = I2C(cause: BusError)

  /** What a call returned: nothing, or the error `E`. */
  datatype Outcome<E> = Done | Failed(error: E)

  datatype SlaveAddr = Default | Alternative(a2: bool, a1: bool, a0: bool)

  const DEVICE_BASE_ADDRESS: Byte := 0x70

  /** The earlier address resolver: the base, with the straps ORed into
      bits 2, 1 and 0. */
  function Addr(s: SlaveAddr, base: Byte): (r: Byte)
    ensures s.Default? ==> r == base
    ensures r & 0xF8 == base & 0xF8 && r & base == base
    ensures s.Alternative? ==>
              && (Bit(r, 2) <==> s.a2 || Bit(base, 2))
              && (Bit(r, 1) <==> s.a1 || Bit(base, 1))
              && (Bit(r, 0) <==> s.a0 || Bit(base, 0))
  {
    match s
    case Default => base
    case Alternative(a2, a1, a0) =>
      base | ((if a2 then 1 else 0) << 2) | ((if a1 then 1 else 0) << 1) | (if a0 then 1 else 0)
  }

  /** The same strapping in the current driver's terms. */
  function Current(s: SlaveAddr): Types.SlaveAddr
  {
    match s
    case Default => Types.Default
    case Alternative(a2, a1, a0) => Types.Alternative(a2, a1, a0)
  }

  /** The earlier resolver and the current one agree on every strapping,
      and both use the same base address. */
  lemma AddrAgreesWithCurrent(s: SlaveAddr, base: Byte)
    ensures Addr(s, base) == Types.Addr(Current(s), base)
    ensures DEVICE_BASE_ADDRESS == Types.DEVICE_BASE_ADDRESS
  {
  }

  /** The earlier driver's address table for the base address 0x70. */
  lemma DefaultAddressTable()
    ensures Addr(Default, DEVICE_BASE_ADDRESS) == 0x70
    ensures Addr(Alternative(false, false, false), DEVICE_BASE_ADDRESS) == 0x70
    ensures Addr(Alternative(false, false, true), DEVICE_BASE_ADDRESS) == 0x71
    ensures Addr(Alternative(false, true, false), DEVICE_BASE_ADDRESS) == 0x72
    ensures Addr(Alternative(true, false, false), DEVICE_BASE_ADDRESS) == 0x74
    ensures Addr(Alternative(true, true, true), DEVICE_BASE_ADDRESS) == 0x77
  {
  }

  /** A bus reply as this driver passes it on, with the error type `E` the
      caller sees. */
  function Wrapped(reply: Reply): (r: Outcome<Error>)
    ensures r.Done? <==> reply.Ack?
    ensures reply.Nak? ==> r.error == I2C(reply.error)
  {
    if reply.Ack? then Done else Failed(I2C(reply.error))
  }

  /** A bus reply as the earlier pass-through calls report it: the bus's own
      error (`type Error = E`). */
  function Unwrapped(reply: Reply): (r: Outcome<BusError>)
    ensures r.Done? <==> reply.Ack?
    ensures reply.Nak? ==> r.error == reply.error
  {
    if reply.Ack? then Done else Failed(reply.error)
  }

  class Driver {
    const bus: Bus
    /** The resolved address of the switch. */
    const address: Byte

    constructor (bus: Bus, addr: SlaveAddr)
      ensures this.bus == bus && address == Addr(addr, DEVICE_BASE_ADDRESS)
      ensures bus.trace == old(bus.trace)
    {
      this.bus := bus;
      address := Addr(addr, DEVICE_BASE_ADDRESS);
    }

    /** Tear the driver down and hand back the bus it owned. */
    method Destroy() returns (b: Bus)
      ensures b == bus
    {
      b := bus;
    }

    /** Select channels as the earlier driver does: the byte goes, unmasked,
        to the base address, wherever the switch is strapped. */
    method SelectChannels(channels: Byte) returns (r: Outcome<Error>)
      modifies bus
      ensures bus.trace == old(bus.trace) + [WriteEvent(DEVICE_BASE_ADDRESS, [channels])]
      ensures r == Wrapped(bus.replies(|old(bus.trace)|))
    {
      var reply := bus.Call(WriteEvent(DEVICE_BASE_ADDRESS, [channels]));
      r := Wrapped(reply);
    }

    /** Select channels on the switch at its own resolved address. */
    method SelectChannelsAtAddress(channels: Byte) returns (r: Outcome<Error>)
      modifies bus
      ensures bus.trace == old(bus.trace) + [WriteEvent(address, [channels])]
      ensures r == Wrapped(bus.replies(|old(bus.trace)|))
    {
      var reply := bus.Call(WriteEvent(address, [channels]));
      r := Wrapped(reply);
    }

    /** Pass a write through to `target` unchanged. */
    method Write(target: Byte, bytes: seq<Byte>) returns (r: Outcome<BusError>)
      modifies bus
      ensures bus.trace == old(bus.trace) + [WriteEvent(target, bytes)]
      ensures r == Unwrapped(bus.replies(|old(bus.trace)|))
    {
      var reply := bus.Call(WriteEvent(target, bytes));
      r := Unwrapped(reply);
    }

    /** Pass a read through to `target` unchanged. */
    method Read(target: Byte, len: nat) returns (r: Outcome<BusError>)
      modifies bus
      ensures bus.trace == old(bus.trace) + [ReadEvent(target, len)]
      ensures r == Unwrapped(bus.replies(|old(bus.trace)|))
    {
      var reply := bus.Call(ReadEvent(target, len));
      r := Unwrapped(reply);
    }

    /** Pass a write-read through to `target` unchanged. */
    method WriteRead(target: Byte, bytes: seq<Byte>, len: nat) returns (r: Outcome<BusError>)
      modifies bus
      ensures bus.trace == old(bus.trace) + [WriteReadEvent(target, bytes, len)]
      ensures r == Unwrapped(bus.replies(|old(bus.trace)|))
    {
      var reply := bus.Call(WriteReadEvent(target, bytes, len));
      r := Unwrapped(reply);
    }
  }

  /** A switch strapped to 0x71: the earlier select writes to 0x70, where
      another switch (or nothing) answers. */
  method StrappedSelectMissesSwitch() returns (address: Byte, target: Byte)
    ensures address == 0x71 && target == 0x70
  {
    var bus := new Bus(n => Ack(0));
    var driver := new Driver(bus, Alternative(false, false, true));
    var _ := driver.SelectChannels(0x01);
    address := driver.address;
    target := bus.trace[0].address;
  }

  /** With the select sent to the resolved address, every strapping reaches
      its own switch. */
  method StrappedSelectReachesSwitch(addr: SlaveAddr, channels: Byte) returns (address: Byte, target: Byte)
    ensures address == Addr(addr, DEVICE_BASE_ADDRESS) && target == address
  {
    var bus := new Bus(n => Ack(0));
    var driver := new Driver(bus, addr);
    var _ := driver.SelectChannelsAtAddress(channels);
    address := driver.address;
    target := bus.trace[0].address;
  }
}
