/** Concrete uses of the current driver on a transport that answers every
    call as given, with the bus traffic each one produces. */
module Scenarios {
  import opened I2cBus
  import opened Types
  import opened Device
  import opened Parts

  const SWITCH: Byte := 0x70
  const SLAVE: Byte := 0x20
  const DATA: seq<Byte> := [0x55, 0xAA]

  /** Explicit select on the 8-channel part: one control write, recorded. */
  method SelectOnce() returns (trace: seq<Event>, mask: Byte)
    ensures trace == [WriteEvent(SWITCH, [0x01])] && mask == 0x01
  {
    var bus := new Bus(n => Ack(0));
    var dev := new Xca954xa(bus, Default, Xca9548a);
    var _ := dev.SelectChannels(0x01);
    trace, mask := bus.trace, dev.mask;
  }

  /** Bits of channels the 2-channel part lacks are dropped on a select. */
  method SelectDropsMissingChannels() returns (trace: seq<Event>, mask: Byte)
    ensures trace == [WriteEvent(SWITCH, [0x01])] && mask == 0x01
  {
    var bus := new Bus(n => Ack(0));
    var dev := new Xca954xa(bus, Default, Xca9543a);
    var _ := dev.SelectChannels(0x81);
    trace, mask := bus.trace, dev.mask;
  }

  /** Channel status of the 8-channel part is the register as read; the
      4-channel part reports its low nibble, and its interrupts from the
      high nibble. */
  method StatusReads() returns (wide: Result<Byte>, narrow: Result<Byte>, interrupts: Result<Byte>)
    ensures wide == Ok(0x55) && narrow == Ok(0x05) && interrupts == Ok(0x05)
  {
    var bus8 := new Bus(n => Ack(0x55));
    var dev8 := new Xca954xa(bus8, Default, Xca9548a);
    wide := dev8.GetChannelStatus();
    var bus4 := new Bus(n => Ack(0x55));
    var dev4 := new Xca954xa(bus4, Default, Xca9545a);
    narrow := dev4.GetChannelStatus();
    interrupts := dev4.GetInterruptStatus();
  }

  /** A pass-through write after an explicit select goes out as it is. */
  method WriteAfterSelect() returns (trace: seq<Event>)
    ensures trace == [WriteEvent(SWITCH, [0x01]), WriteEvent(SLAVE, DATA)]
  {
    var bus := new Bus(n => Ack(0));
    var dev := new Xca954xa(bus, Default, Xca9548a);
    var _ := dev.SelectChannels(0x01);
    var _ := dev.Write(SLAVE, DATA);
    trace := bus.trace;
  }

  /** A pass-through read after an explicit select goes out as it is. */
  method ReadAfterSelect() returns (trace: seq<Event>)
    ensures trace == [WriteEvent(SWITCH, [0x01]), ReadEvent(SLAVE, 2)]
  {
    var bus := new Bus(n => Ack(0));
    var dev := new Xca954xa(bus, Default, Xca9548a);
    var _ := dev.SelectChannels(0x01);
    var _ := dev.Read(SLAVE, 2);
    trace := bus.trace;
  }

  /** A pass-through write-read after an explicit select goes out as it is. */
  method WriteReadAfterSelect() returns (trace: seq<Event>)
    ensures trace == [WriteEvent(SWITCH, [0x01]), WriteReadEvent(SLAVE, DATA, 2)]
  {
    var bus := new Bus(n => Ack(0));
    var dev := new Xca954xa(bus, Default, Xca9548a);
    var _ := dev.SelectChannels(0x01);
    var _ := dev.WriteRead(SLAVE, DATA, 2);
    trace := bus.trace;
  }

  /** Three calls on three handles: three selects, each before its call. */
  method ThreeHandles() returns (trace: seq<Event>)
    ensures trace == [SelectWrite(SWITCH, 0x01), WriteEvent(SLAVE, DATA),
                      SelectWrite(SWITCH, 0x02), ReadEvent(SLAVE, 2),
                      SelectWrite(SWITCH, 0x04), WriteReadEvent(SLAVE, DATA, 2)]
  {
    var bus := new Bus(n => Ack(0));
    var dev := new Xca954xa(bus, Default, Xca9548a);
    var parts := Split(dev);
    var _ := parts[0].Write(SLAVE, DATA);
    assert parts[1].Valid();
    var _ := parts[1].Read(SLAVE, 2);
    assert parts[2].Valid();
    var _ := parts[2].WriteRead(SLAVE, DATA, 2);
    trace := bus.trace;
  }

  /** Two calls on the same handle: one select only. */
  method SameHandleBackToBack() returns (trace: seq<Event>)
    ensures trace == [SelectWrite(SWITCH, 0x08), WriteEvent(SLAVE, DATA), ReadEvent(SLAVE, 2)]
  {
    var bus := new Bus(n => Ack(0));
    var dev := new Xca954xa(bus, Default, Xca9545a);
    var parts := Split(dev);
    var _ := parts[3].Write(SLAVE, DATA);
    var _ := parts[3].Read(SLAVE, 2);
    trace := bus.trace;
  }

  /** A failed select aborts the call and is issued again by the next one. */
  method FailedSelectRetried() returns (first: Result<()>, second: Result<()>, trace: seq<Event>)
    ensures first == Err(I2C(BusError(5))) && second == Ok(())
    ensures trace == [SelectWrite(SWITCH, 0x02), SelectWrite(SWITCH, 0x02), WriteEvent(SLAVE, DATA)]
  {
    var bus := new Bus(n => if n == 0 then Nak(BusError(5)) else Ack(0));
    var dev := new Xca954xa(bus, Default, Xca9543a);
    var parts := Split(dev);
    first := parts[1].Write(SLAVE, DATA);
    second := parts[1].Write(SLAVE, DATA);
    trace := bus.trace;
  }

  /** Building and tearing down a driver puts nothing on the bus. */
  method CreateAndDestroy() returns (same: bool, trace: seq<Event>)
    ensures same && trace == []
  {
    var bus := new Bus(n => Ack(0));
    var dev := new Xca954xa(bus, Alternative(true, false, true), Xca9545a);
    var _ := Split(dev);
    var back := dev.Destroy();
    same, trace := back == bus, back.trace;
  }

  /** A call made while another operation holds the record is refused
      without touching the bus. */
  method NestedCallRefused() returns (r: Result<()>, trace: seq<Event>)
    ensures r == Err(CouldNotAcquireDevice) && trace == []
  {
    var bus := new Bus(n => Ack(0));
    var dev := new Xca954xa(bus, Default, Xca9548a);
    var parts := Split(dev);
    var _ := dev.Acquire();
    r := parts[0].Write(SLAVE, DATA);
    trace := bus.trace;
  }
}
