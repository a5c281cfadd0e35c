# TCA/PCA954xA I²C switch driver: channel routing core

This project models the core of a driver for the TCA/PCA9548A (8 channels), TCA/PCA9545A (4 channels) and TCA/PCA9543A (2 channels) I²C switches.

- **Device record.** One record owns the bus, the switch's resolved address and `selected_channel_mask`, the last mask written to the control register.
- **Gate.** A non-reentrant gate lends the record to one operation at a time. If the record is already lent, the operation fails with `CouldNotAcquireDevice`.
- **Split handles.** The driver can be split into one bus handle per channel. Before each call, a handle writes its one-hot mask to the switch. It does this only when the recorded mask differs, and then it issues the caller's call.
- **Top-level calls.** Pass-through calls on the driver itself never reselect.
- **Register decoding.** Each part has its own channel mask and decodes its status register its own way.
- **Address resolution.** The A2/A1/A0 strap pins are ORed into bits 2..0 of the base address 0x70.
- **Older driver.** An earlier driver kept no mask state. It is modelled in its own module.

Layout:

- `i2c_bus.dfy` (`I2cBus`): the transport. It is an object that records every call it receives in `trace`. It answers its k-th call with `replies(k)`: either `Ack(raw)`, where `raw` is the first byte read, or `Nak(error)`. The bus's success or failure, and the byte a status read returns, are therefore inputs of the model.
- `types.dfy` (`Types`): `SlaveAddr`, the address resolver, `Error` and `Result`.
- `device.dfy` (`Device`):
  - the three parts as a `Variant`, with their bit semantics;
  - effect functions (`Step`) that say, for one operation, the mask left behind, the bus calls issued and the result returned;
  - the class `Xca954xa`, whose methods are proved to have exactly those effects. It holds the record and the gate flag `busy`.
- `parts.dfy` (`Parts`):
  - the handle table and splitting;
  - the lazy-reselect effect `Routed`, with lemmas about consecutive calls;
  - the class `I2cSlave`.
- `legacy.dfy` (`Legacy`): the earlier driver of `src/lib.rs`.
- `scenarios.dfy` (`Scenarios`): concrete uses of the driver, each with the exact bus trace it produces.

The three parts are generated by macros in the source. Here they are one implementation, parameterised by `Variant`. The repetition that builds a handle per channel in `parts!` becomes a loop over the part's handle table in `Parts.Split`.

The model follows the code on two details:

- The "device busy" error is `CouldNotAcquireDevice`.
- The 8-channel part writes the select byte unmodified rather than ANDing it with a mask. The two give the same byte, because that part's mask is 0xFF (`Device.Masked`).

## Model

| member | source | states |
|---|---|---|
| `Types.Addr` | src/types.rs:25-32 | `Default` gives the base address. Every base bit survives, bits 3..7 equal the base's, and the result is ≥ the base. With `Alternative`, bits 2, 1 and 0 are set exactly when A2, A1 or A0 (or that base bit) is set. |
| `Types.AlternativeAddressesDistinct` | src/types.rs:64-86 | On a base with bits 0..2 clear, two `Alternative` strappings give the same address iff they are equal. So the eight strappings give eight addresses. |
| `Types.AllStrapsLowIsDefault` | src/types.rs:58-69 | `Alternative(false,false,false)` resolves to the same address as `Default`. |
| `Types.FamilyAddresses` | src/types.rs:64-86 | With base 0x70: `Default` and all-low give 0x70; the other tested strappings give 0x71, 0x72, 0x74 and 0x77. |
| `Types.BusyIsNotABusError` | src/types.rs:6-11 | `CouldNotAcquireDevice` differs from every wrapped bus error, and every error is one of these two kinds. |
| `Types.Lift` | src/device_impl.rs:25-27 | A call's result is `Ok` iff the bus acknowledged. A bus failure is returned wrapped as `I2C(e)`. |
| `Device.ValidMask` | src/device_impl.rs:257-260 | Bit i of a part's mask is set iff the part has channel i: 0xFF, 0x0F and 0x03. |
| `Device.Masked` | src/device_impl.rs:247-249 | Bit i of the byte written on select (and reported as channel status) is set iff it is set in the input and channel i exists. The result has no bits outside the part's mask. A byte already inside the mask is unchanged, so the 8-channel part uses it as is. |
| `Device.InterruptStatus` | src/device_impl.rs:222-230 | Bit i of the interrupt status is set iff channel i exists and bit i+4 of the register is set. The result is ≤ the part's mask. |
| `Device.StatusRegisterRoundTrip` | src/device_impl.rs:205-230 | A register holding selected channels in the low bits and interrupt flags in the high nibble decodes back to the masked selection and the masked flags. |
| `Device.SelectStep` | src/device_impl.rs:24-30 | A select issues exactly one write of `[channels]` to the device address. On acknowledgement the record's mask becomes `channels` and the result is `Ok`. On failure the mask is unchanged and the bus error is returned. |
| `Device.OnAcquired` | src/device_impl.rs:62-71 | A record already lent out yields `CouldNotAcquireDevice`, with no bus call and no change of mask. Otherwise the operation's own effect is the result. |
| `Device.ForwardStep` | src/device_impl.rs:87-114 | A pass-through issues exactly the caller's call, leaves the mask unchanged, and succeeds iff the bus acknowledges. |
| `Device.StatusStep` | src/device_impl.rs:163-171 | A status read issues one 1-byte read at the device address and never changes the mask. A failure is returned as the bus error. Otherwise the result is the decoded byte: `Masked` for channel status, `InterruptStatus` for interrupts. |
| `Device.Xca954xa.constructor` | src/device_impl.rs:123-132 | `new` stores `Addr(addr, 0x70)` for the strapping `addr` and mask 0, leaves the gate free, and issues no bus call. |
| `Device.Xca954xa.Destroy` | src/device_impl.rs:135-137 | `destroy` returns the very bus the driver was built with. |
| `Device.Xca954xa.Acquire` | src/device_impl.rs:66-69 | Borrowing succeeds iff the record is not already lent out. Afterwards it is lent. |
| `Device.Xca954xa.Release` | src/device_impl.rs:70 | When the operation ends, the record is free again. |
| `Device.Xca954xa.SelectData` | src/device_impl.rs:24-30 | `Xca954xaData::select_channels` has exactly the effect `SelectStep`. |
| `Device.Xca954xa.SelectChannels` | src/device_impl.rs:247-249 | Top-level select (also src/device_impl.rs:187-189): the gate around `SelectStep` on `Masked(variant, channels)`. The stored mask keeps no bits outside the part's mask (`Valid`), and the gate's state is restored. |
| `Device.Xca954xa.GetChannelStatus` | src/device_impl.rs:205-213 | Channel status (also src/device_impl.rs:163-171): the gate around `StatusStep` with channel decoding. The mask is unchanged. |
| `Device.Xca954xa.GetInterruptStatus` | src/device_impl.rs:222-230 | On the interrupt-capable parts only: the gate around `StatusStep` with interrupt decoding. The mask is unchanged. |
| `Device.Xca954xa.Forward` | src/device_impl.rs:87-114 | The gate around `ForwardStep`: exactly one bus call with the caller's address. There is no select write and no mask change. |
| `Device.Xca954xa.Transaction` | src/device_impl.rs:87-95 | The whole operation list goes to the bus as one forwarded transaction. |
| `Device.Xca954xa.Read` | src/device_impl.rs:97-99 | One forwarded read. |
| `Device.Xca954xa.Write` | src/device_impl.rs:101-103 | One forwarded write. |
| `Device.Xca954xa.WriteRead` | src/device_impl.rs:105-114 | One forwarded write-read. |
| `Parts.HandleMasks` | src/parts.rs:30-38 | A part has one handle per channel. Handle i has mask `1 << i`, the masks are pairwise distinct, and each lies inside the part's mask. |
| `Parts.Split` | src/parts.rs:20-26 | Splitting (src/device_impl.rs:144-146) gives `Channels(variant)` fresh handles on the same record, one per channel, with distinct masks `1 << i`. It cannot fail and issues no bus call. |
| `Parts.Routed` | src/parts.rs:60-64 | A handle call either leaves the handle's mask selected, or its select failed and the mask is unchanged. A select write goes out first iff the recorded mask differs. The caller's call goes out last, once routed, even if that call then fails. A failed select's error is the result, and nothing else goes out. Conversely, when the mask differs and the select fails, the call is exactly that one select write, the mask is kept and the bus error is returned. |
| `Parts.SameHandleTwice` | src/parts.rs:61-63 | Two consecutive calls on one handle issue at most one select write, before the first call, provided that select did not fail. |
| `Parts.FailedSelectIsRetried` | src/parts.rs:62 | After a failed select, the aborted call issued only the select. The next call on the same handle issues the select again. |
| `Parts.SwitchingHandlesReselects` | src/parts.rs:61-63 | After a call on handle a whose select succeeded or was skipped, the mask is a's. A call on a different handle b then issues b's select write first. |
| `Parts.TransactionSelectsOnce` | src/parts.rs:55-65 | A composite transaction is routed at most once as a whole: its bus calls are the transaction, the select, or the select followed by the transaction. |
| `Parts.RoutedAcknowledged` | src/parts.rs:60-64 | When the select, if any, is acknowledged, one handle call records the handle's mask, sends its select write iff the mask differs, then the caller's call, and returns that call's reply. |
| `Parts.RunFirstCall` | src/parts.rs:60-98 | When the first call's select is acknowledged, a run's traffic is that call's traffic followed by the traffic of the remaining calls from the first call's handle, and `Expected` splits the same way. |
| `Parts.RunFollowsExpected` | src/parts.rs:60-98 | On an acknowledging bus, the traffic of a run of handle calls is exactly `Expected`: each call is preceded by its handle's select write iff it addresses a different handle than the call before it (the first call is compared with the recorded mask). |
| `Parts.RunEndsOnLastHandle` | src/parts.rs:60-98 | On an acknowledging bus, a non-empty run of handle calls leaves the last call's handle mask recorded. |
| `Parts.ExpectedLength` | src/parts.rs:60-98 | The expected traffic has one bus call per handle call plus one select write per change of handle. |
| `Parts.RunSelectsOncePerSwitch` | src/parts.rs:60-98 | On an acknowledging bus, a run of handle calls issues exactly the `Expected` traffic: one select write per change of handle, just before the call that changes handle, and none otherwise. So the number of bus calls is the number of handle calls plus the number of handle changes, and the last handle's mask stays selected. |
| `Parts.I2cSlave.constructor` | src/parts.rs:23 | A handle holds a reference to the record and its channel mask. |
| `Parts.I2cSlave.Route` | src/parts.rs:60-64 | A handle call has exactly the effect `OnAcquired(busy, mask, Routed(...))`. If the record is busy, the call returns `CouldNotAcquireDevice` with no bus call. |
| `Parts.I2cSlave.Transaction` | src/parts.rs:55-66 | `Route` for a transaction. |
| `Parts.I2cSlave.Read` | src/parts.rs:68-75 | `Route` for a read. |
| `Parts.I2cSlave.Write` | src/parts.rs:77-84 | `Route` for a write. |
| `Parts.I2cSlave.WriteRead` | src/parts.rs:86-98 | `Route` for a write-read. |
| `Legacy.Addr` | src/lib.rs:132-142 | The earlier resolver: `Default` gives the base, and the straps set bits 2, 1 and 0. |
| `Legacy.AddrAgreesWithCurrent` | src/lib.rs:132-143 | The earlier resolver and the current one agree on every strapping, and both base addresses are 0x70. |
| `Legacy.DefaultAddressTable` | src/lib.rs:230-243 | The earlier driver's tested address table: `Default` and all-low give 0x70; the other tested strappings give 0x71, 0x72, 0x74 and 0x77. |
| `Legacy.Wrapped` | src/lib.rs:181-185 | Select returns `Done` iff the bus acknowledged. Otherwise it returns the error wrapped as `I2C`. |
| `Legacy.Unwrapped` | src/lib.rs:191-216 | The earlier pass-through calls return the bus error itself, unwrapped. |
| `Legacy.Driver.constructor` | src/lib.rs:162-167 | `new` stores the resolved address and issues no bus call. |
| `Legacy.Driver.Destroy` | src/lib.rs:170-172 | `destroy` returns the owned bus. |
| `Legacy.Driver.SelectChannels` | src/lib.rs:181-185 | One unmasked write of `[channels]` to 0x70, whatever the resolved address. No state is kept. |
| `Legacy.Driver.SelectChannelsAtAddress` | src/lib.rs:181-185 | Corrected select: the unmasked write of `[channels]` goes to the driver's resolved address. |
| `Legacy.Driver.Write` | src/lib.rs:193-195 | Exactly one bus write, with the caller's address and bytes. |
| `Legacy.Driver.Read` | src/lib.rs:203-205 | Exactly one bus read, with the caller's address. |
| `Legacy.Driver.WriteRead` | src/lib.rs:213-215 | Exactly one bus write-read, with the caller's address and bytes. |
| `Legacy.StrappedSelectMissesSwitch` | src/lib.rs:181-185 | A switch strapped to 0x71 has its select written to 0x70. |
| `Legacy.StrappedSelectReachesSwitch` | src/lib.rs:162-185 | With the corrected select, the write reaches the resolved address for every strapping. |
| `Scenarios.SelectOnce` | tests/tests.rs:27-32 | An explicit select of 0x01 on a default-addressed switch gives exactly one write of `[0x01]` to 0x70, and the mask becomes 0x01. |
| `Scenarios.SelectDropsMissingChannels` | src/device_impl.rs:246-249 | On the 2-channel part, selecting 0x81 writes and stores 0x01. |
| `Scenarios.StatusReads` | tests/tests.rs:35-41 | A register reading 0x55 gives channel status 0x55 on the 8-channel part. On the 4-channel part it gives channel status 0x05 and interrupt status 0x05. |
| `Scenarios.WriteAfterSelect` | tests/tests.rs:44-53 | An explicit select, then a pass-through write, produce exactly those two bus calls. |
| `Scenarios.ReadAfterSelect` | tests/tests.rs:55-68 | An explicit select, then a 2-byte pass-through read, produce exactly the write of `[0x01]` to 0x70 and the read at the slave address. |
| `Scenarios.WriteReadAfterSelect` | tests/tests.rs:69-88 | An explicit select, then a pass-through write-read, produce exactly the write of `[0x01]` to 0x70 and the write-read at the slave address. |
| `Scenarios.ThreeHandles` | src/parts.rs:60-98 | Writing on handle 0, reading on handle 1, then write-read on handle 2: the selects 0x01, 0x02 and 0x04 are interleaved with the three calls, in that order. |
| `Scenarios.SameHandleBackToBack` | src/parts.rs:68-84 | A write and then a read on the same handle issue one select and then the two calls. |
| `Scenarios.FailedSelectRetried` | src/parts.rs:77-84 | When the first select fails, the call returns the bus error. The next call on that handle selects again and then writes. |
| `Scenarios.CreateAndDestroy` | src/device_impl.rs:123-146 | `new`, `split` and `destroy` issue no bus call and return the original bus. |
| `Scenarios.NestedCallRefused` | src/device_impl.rs:66-69 | A handle call made while the record is held returns `CouldNotAcquireDevice` and issues no bus call. |

## Left out

- Trait plumbing from embedded-hal is not modelled: the `ErrorType` implementations, the mapping of errors to `ErrorKind` (src/device_impl.rs:47-57), `PhantomData`, lifetimes and the `Sealed` traits. They are type-level glue with no run-time behaviour.
- Bus transfer contents are not modelled. A read records only its length. The bytes a read places in the caller's buffer are not modelled, except the first byte of a status read (`Ack(raw)`). The transport itself is an oracle: its replies are inputs.
- `do_on_acquired(f)` takes a closure, which cannot be passed to a method here. Each operation is written out as `Acquire`, then the body of `f`, then `Release`. A call nested inside `f` is modelled as a call made between another holder's `Acquire` and `Release`. Panics inside `f` are not modelled.
- Lifetimes are not enforced. Rust ensures that handles do not outlive the driver and that `destroy` consumes it. Here nothing stops a caller from using a driver after `Destroy`.
- `Device.Xca954xa.ReadStatus` is the shared body of the two status reads and has no table row of its own.
- Concurrency is not modelled. The gate only guards against reentrancy, and every call is sequential.
- `examples/linux.rs` is not part of this model. It does Linux device I/O and prints.
- The mock harness in `tests/tests.rs` is not modelled. Its tests use the names `TCA9548A`/`PCA9548A` with the default address, and match neither driver exactly: `get_channel_status` exists only in the current driver, while those names belong to the earlier one. All five of its tests (select, channel status, write, read, write-read) are restated in `Scenarios` against the current 8-channel driver, with the same addresses and bytes.
- The current crate root, which defines `DEVICE_BASE_ADDRESS` for the current design, is not part of this model. `Types.DEVICE_BASE_ADDRESS` is 0x70, the value the resolver tests in src/types.rs:64-86 pin down.
- `Parts.RunSelectsOncePerSwitch` fixes the traffic of a run (`Parts.Expected`) only on a bus that acknowledges every call. A failed select is retried by the next call on the same handle (`Parts.FailedSelectIsRetried`), so on a failing bus the number of selects can exceed the number of handle changes.

## Findings

| source | as written | input that shows it | evidently intended | confidence | as-written member | corrected member |
|---|---|---|---|---|---|---|
| src/lib.rs:181-185 | The earlier `select_channels` writes the control byte to `DEVICE_BASE_ADDRESS`, ignoring the stored resolved address. | `new(bus, Alternative(false, false, true))` resolves to 0x71, but `select_channels(0x01)` writes `[0x01]` to 0x70 (`Legacy.StrappedSelectMissesSwitch`). | The write goes to the switch's resolved address, as the current driver does (src/device_impl.rs:26). | not executed; high | `Legacy.Driver.SelectChannels` | `Legacy.Driver.SelectChannelsAtAddress` |
