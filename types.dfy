/** Address selection and the error type shared by the switch drivers. */
module Types {
  import opened I2cBus

  /** The address of the switch with all strap pins low. */
  const DEVICE_BASE_ADDRESS: Byte := 0x70

  /** How the switch's address pins are strapped. */
  datatype SlaveAddr = Default | Alternative(a2: bool, a1: bool, a0: bool)

  function BitOf(b: bool): Byte { if b then 1 else 0 }

  /** The bus address of a switch strapped as `s`, given the family's base
      address: the base, with the A2, A1 and A0 straps ORed into bits 2, 1, 0. */
  function Addr(s: SlaveAddr, base: Byte): (r: Byte)
    ensures s.Default? ==> r == base
    // every bit of the base survives, and bits 3..7 are the base's
    ensures r & base == base
    ensures r & 0xF8 == base & 0xF8
    ensures r >= base
    ensures s.Alternative? ==>
              && (Bit(r, 2) <==> s.a2 || Bit(base, 2))
              && (Bit(r, 1) <==> s.a1 || Bit(base, 1))
              && (Bit(r, 0) <==> s.a0 || Bit(base, 0))
  {
    match s
    case Default => base
    case Alternative(a2, a1, a0) => base | (BitOf(a2) << 2) | (BitOf(a1) << 1) | BitOf(a0)
  }

  /** On a base whose low three bits are clear, distinct strappings give
      distinct addresses. */
  lemma AlternativeAddressesDistinct(s: SlaveAddr, t: SlaveAddr, base: Byte)
    requires s.Alternative? && t.Alternative?
    requires base & 0x07 == 0
    ensures Addr(s, base) == Addr(t, base) <==> s == t
  {
  }

  /** With every strap pin low the switch answers at its default address. */
  lemma AllStrapsLowIsDefault(base: Byte)
    ensures Addr(Alternative(false, false, false), base) == Addr(Default, base)
  {
  }

  /** The address table of the TCA/PCA954x family. */
  lemma FamilyAddresses()
    ensures Addr(Default, DEVICE_BASE_ADDRESS) == 0x70
    ensures Addr(Alternative(false, false, false), DEVICE_BASE_ADDRESS) == 0x70
    ensures Addr(Alternative(false, false, true), DEVICE_BASE_ADDRESS) == 0x71
    ensures Addr(Alternative(false, true, false), DEVICE_BASE_ADDRESS) == 0x72
    ensures Addr(Alternative(true, false, false), DEVICE_BASE_ADDRESS) == 0x74
    ensures Addr(Alternative(true, true, true), DEVICE_BASE_ADDRESS) == 0x77
  {
  }

  /** Errors of the driver: a wrapped transport error, or the shared record
      was already borrowed by an operation in flight. */
  datatype Error = I2C(cause: BusError) | CouldNotAcquireDevice

  /** A busy device is reported distinctly from every transport error. */
  lemma BusyIsNotABusError(e: BusError)
    ensures CouldNotAcquireDevice != I2C(e)
    ensures forall err: Error :: err.I2C? || err == CouldNotAcquireDevice
  {
  }

  datatype Result<T> = Ok(value: T) | Err(error: Error)

  /** The transport's reply as the driver reports it (`map_err(Error::I2C)`). */
  function Lift(reply: Reply): (r: Result<()>)
    ensures r.Ok? <==> reply.Ack?
    ensures reply.Nak? ==> r.error == I2C(reply.error)
  {
    match reply
    case Ack(_) => Ok(())
    case Nak(e) => Err(I2C(e))
  }
}
