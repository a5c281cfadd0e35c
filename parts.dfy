/** Splitting a switch into one bus handle per channel, and the lazy
    reselect every handle performs before its call. */
module Parts {
  import opened I2cBus
  import opened Types
  import opened Device

  /** The channel masks of the handles `i2c0`, `i2c1`, ... of part `v`. */
  function HandleMasks(v: Variant): (ms: seq<Byte>)
    ensures |ms| == Channels(v)
    ensures forall i :: 0 <= i < |ms| ==> ms[i] == 1 << i
    ensures forall i, j :: 0 <= i < j < |ms| ==> ms[i] != ms[j]
    ensures forall i :: 0 <= i < |ms| ==> Masked(v, ms[i]) == ms[i]
  {
    match v
    case Xca9548a => [0x01, 0x02, 0x04, 0x08, 0x10, 0x20, 0x40, 0x80]
    case Xca9545a => [0x01, 0x02, 0x04, 0x08]
    case Xca9543a => [0x01, 0x02]
  }

  /** One call on the handle with mask `target`, on a record whose selected
      mask is `mask`, the bus answering its k-th call with `replies(k)`. */
  function Routed(address: Byte, mask: Byte, target: Byte, op: Event, replies: nat -> Reply, k: nat): (s: Step<()>)
    // either the handle's channel ends up selected, or the select failed
    // and the record keeps its mask
    ensures s.mask == target || (s.mask == mask && s.result.Err?)
    // a select write is issued exactly when the recorded mask differs,
    // and it goes out first
    ensures |s.events| == (if mask != target then 1 else 0) + (if s.mask == target then 1 else 0)
    ensures mask != target ==> s.events[0] == SelectWrite(address, target)
    // once routed, the caller's call goes out last, with its own reply
    ensures s.mask == target ==> s.events[|s.events| - 1] == op && s.result == Lift(replies(k + |s.events| - 1))
    // a failed select is what the caller sees
    ensures s.mask != target ==> replies(k).Nak? && s.result == Err(I2C(replies(k).error))
    // and conversely, a select that fails leaves the call unrouted
    ensures mask != target && replies(k).Nak? ==>
              s == Step(mask, [SelectWrite(address, target)], Err(I2C(replies(k).error)))
  {
    if mask != target then
      var selected := SelectStep(address, mask, target, replies(k));
      if selected.result.Err? then selected
      else Step(target, selected.events + [op], Lift(replies(k + 1)))
    else
      Step(mask, [op], Lift(replies(k)))
  }

  /** Two calls in a row on one handle: at most one select write, unless the
      first one failed. */
  lemma SameHandleTwice(address: Byte, mask: Byte, target: Byte, op1: Event, op2: Event, replies: nat -> Reply, k: nat)
    requires mask == target || replies(k).Ack?
    ensures var s1 := Routed(address, mask, target, op1, replies, k);
            var s2 := Routed(address, s1.mask, target, op2, replies, k + |s1.events|);
            && s2.events == [op2]
            && s1.events + s2.events == (if mask != target then [SelectWrite(address, target)] else []) + [op1, op2]
  {
  }

  /** A select that failed is issued again by the next call on that handle. */
  lemma FailedSelectIsRetried(address: Byte, mask: Byte, target: Byte, op1: Event, op2: Event, replies: nat -> Reply, k: nat)
    requires mask != target && replies(k).Nak?
    ensures var s1 := Routed(address, mask, target, op1, replies, k);
            var s2 := Routed(address, s1.mask, target, op2, replies, k + |s1.events|);
            s1.events == [SelectWrite(address, target)] && s2.events[0] == SelectWrite(address, target)
  {
  }

  /** After a call on one handle, a call on another handle selects first. */
  lemma SwitchingHandlesReselects(address: Byte, mask: Byte, a: Byte, b: Byte, op1: Event, op2: Event, replies: nat -> Reply, k: nat)
    requires a != b
    requires mask == a || replies(k).Ack?
    ensures var s1 := Routed(address, mask, a, op1, replies, k);
            var s2 := Routed(address, s1.mask, b, op2, replies, k + |s1.events|);
            s1.mask == a && s2.events[0] == SelectWrite(address, b)
  {
  }

  /** A composite transaction is routed once as a whole, however many
      operations it holds. */
  lemma TransactionSelectsOnce(address: Byte, mask: Byte, target: Byte, slave: Byte, ops: seq<Operation>, replies: nat -> Reply, k: nat)
    ensures var s := Routed(address, mask, target, TransactionEvent(slave, ops), replies, k);
            || s.events == [TransactionEvent(slave, ops)]
            || s.events == [SelectWrite(address, target)]
            || s.events == [SelectWrite(address, target), TransactionEvent(slave, ops)]
  {
  }

  /** A call on handle `target` carrying bus call `op`. */
  datatype Call = Call(target: Byte, op: Event)

  /** Several handle calls one after the other on one record. */
  function Run(address: Byte, mask: Byte, calls: seq<Call>, replies: nat -> Reply, k: nat): (s: Step<()>)
    decreases |calls|
  {
    if calls == [] then Step(mask, [], Ok(()))
    else
      var first := Routed(address, mask, calls[0].target, calls[0].op, replies, k);
      var rest := Run(address, first.mask, calls[1..], replies, k + |first.events|);
      Step(rest.mask, first.events + rest.events, rest.result)
  }

  /** How many calls address a different handle than the one before them
      (the first call is compared with the mask recorded beforehand). */
  function Switches(mask: Byte, calls: seq<Call>): nat
    decreases |calls|
  {
    if calls == [] then 0
    else (if calls[0].target != mask then 1 else 0) + Switches(calls[0].target, calls[1..])
  }

  /** The bus traffic a run of handle calls should produce: each call is
      preceded by its handle's select write exactly when it addresses a
      different handle than the call before it. */
  function Expected(address: Byte, mask: Byte, calls: seq<Call>): seq<Event>
    decreases |calls|
  {
    if calls == [] then []
    else
      (if calls[0].target != mask then [SelectWrite(address, calls[0].target)] else [])
      + [calls[0].op] + Expected(address, calls[0].target, calls[1..])
  }

  /** A call whose select, if any, is acknowledged leaves its handle selected
      and sends the select write only when the handle changes, then the call. */
  lemma RoutedAcknowledged(address: Byte, mask: Byte, target: Byte, op: Event, replies: nat -> Reply, k: nat)
    requires replies(k).Ack?
    ensures var selects := if target != mask then [SelectWrite(address, target)] else [];
            Routed(address, mask, target, op, replies, k)
              == Step(target, selects + [op], Lift(replies(k + |selects|)))
  {
  }

  /** When the first call's select, if any, is acknowledged, a run is that
      call's traffic followed by the run of the remaining calls from the
      first call's handle. */
  lemma RunFirstCall(address: Byte, mask: Byte, calls: seq<Call>, replies: nat -> Reply, k: nat)
    requires calls != [] && replies(k).Ack?
    ensures var c := calls[0];
            var selects := if c.target != mask then [SelectWrite(address, c.target)] else [];
            && Run(address, mask, calls, replies, k).events
                 == selects + [c.op] + Run(address, c.target, calls[1..], replies, k + |selects| + 1).events
            && Expected(address, mask, calls) == selects + [c.op] + Expected(address, c.target, calls[1..])
  {
    RoutedAcknowledged(address, mask, calls[0].target, calls[0].op, replies, k);
  }

  /** The expected traffic holds one bus call per handle call plus one select
      write per change of handle. */
  lemma {:induction false} ExpectedLength(address: Byte, mask: Byte, calls: seq<Call>)
    ensures |Expected(address, mask, calls)| == |calls| + Switches(mask, calls)
    decreases |calls|
  {
    if calls != [] {
      ExpectedLength(address, calls[0].target, calls[1..]);
    }
  }

  /** On a bus that acknowledges everything, a run of handle calls puts on
      the bus exactly the traffic `Expected` describes. */
  lemma {:induction false} RunFollowsExpected(address: Byte, mask: Byte, calls: seq<Call>, replies: nat -> Reply, k: nat)
    requires forall n :: k <= n ==> replies(n).Ack?
    ensures Run(address, mask, calls, replies, k).events == Expected(address, mask, calls)
    decreases |calls|
  {
    if calls != [] {
      var c := calls[0];
      var selects := if c.target != mask then [SelectWrite(address, c.target)] else [];
      assert replies(k).Ack?;
      RunFirstCall(address, mask, calls, replies, k);
      RunFollowsExpected(address, c.target, calls[1..], replies, k + |selects| + 1);
    }
  }

  /** On a bus that acknowledges everything, a run of handle calls leaves the
      last handle's channel selected. */
  lemma {:induction false} RunEndsOnLastHandle(address: Byte, mask: Byte, calls: seq<Call>, replies: nat -> Reply, k: nat)
    requires forall n :: k <= n ==> replies(n).Ack?
    requires calls != []
    ensures Run(address, mask, calls, replies, k).mask == calls[|calls| - 1].target
    decreases |calls|
  {
    var first := Routed(address, mask, calls[0].target, calls[0].op, replies, k);
    assert replies(k).Ack?;
    assert first.mask == calls[0].target;
    if |calls| > 1 {
      RunEndsOnLastHandle(address, first.mask, calls[1..], replies, k + |first.events|);
      assert calls[1..][|calls[1..]| - 1] == calls[|calls| - 1];
    }
  }

  /** On a bus that acknowledges everything, a run of handle calls puts one
      select write on the bus per change of handle, just before the call
      that changes handle, and none otherwise: exactly `Expected`. So the
      number of bus calls is the number of handle calls plus the number of
      handle changes, and the last handle's channel is left selected. */
  lemma RunSelectsOncePerSwitch(address: Byte, mask: Byte, calls: seq<Call>, replies: nat -> Reply, k: nat)
    requires forall n :: k <= n ==> replies(n).Ack?
    ensures Run(address, mask, calls, replies, k).events == Expected(address, mask, calls)
    ensures |Run(address, mask, calls, replies, k).events| == |calls| + Switches(mask, calls)
    ensures calls != [] ==> Run(address, mask, calls, replies, k).mask == calls[|calls| - 1].target
  {
    RunFollowsExpected(address, mask, calls, replies, k);
    ExpectedLength(address, mask, calls);
    if calls != [] {
      RunEndsOnLastHandle(address, mask, calls, replies, k);
    }
  }

  /** A bus handle bound to one channel of a switch. */
  class I2cSlave {
    const dev: Xca954xa
    const channel: Byte

    ghost predicate Valid()
      reads this, dev
    {
      dev.Valid() && channel in HandleMasks(dev.variant)
    }

    constructor (dev: Xca954xa, channel: Byte)
      ensures this.dev == dev && this.channel == channel
    {
      this.dev := dev;
      this.channel := channel;
    }

    /** Borrow the record, select this handle's channel if it is not the
        one recorded, then issue the caller's call. */
    method Route(op: Event) returns (r: Result<()>)
      requires Valid()
      modifies dev, dev.bus
      ensures Valid()
      ensures dev.Performed(OnAcquired(old(dev.busy), old(dev.mask),
                Routed(dev.address, old(dev.mask), channel, op, dev.bus.replies, old(|dev.bus.trace|))), r)
    {
      ghost var mask0, k0 := dev.mask, |dev.bus.trace|;
      var acquired := dev.Acquire();
      if !acquired {
        return Err(CouldNotAcquireDevice);
      }
      if dev.mask != channel {
        var selected := dev.SelectData(channel);
        if selected.Err? {
          assert Routed(dev.address, mask0, channel, op, dev.bus.replies, k0)
              == SelectStep(dev.address, mask0, channel, dev.bus.replies(k0));
          dev.Release();
          return selected;
        }
      }
      var reply := dev.bus.Call(op);
      r := Lift(reply);
      dev.Release();
    }

    method Transaction(target: Byte, operations: seq<Operation>) returns (r: Result<()>)
      requires Valid()
      modifies dev, dev.bus
      ensures Valid()
      ensures dev.Performed(OnAcquired(old(dev.busy), old(dev.mask),
                Routed(dev.address, old(dev.mask), channel, TransactionEvent(target, operations),
                       dev.bus.replies, old(|dev.bus.trace|))), r)
    {
      r := Route(TransactionEvent(target, operations));
    }

    method Read(target: Byte, len: nat) returns (r: Result<()>)
      requires Valid()
      modifies dev, dev.bus
      ensures Valid()
      ensures dev.Performed(OnAcquired(old(dev.busy), old(dev.mask),
                Routed(dev.address, old(dev.mask), channel, ReadEvent(target, len),
                       dev.bus.replies, old(|dev.bus.trace|))), r)
    {
      r := Route(ReadEvent(target, len));
    }

    method Write(target: Byte, bytes: seq<Byte>) returns (r: Result<()>)
      requires Valid()
      modifies dev, dev.bus
      ensures Valid()
      ensures dev.Performed(OnAcquired(old(dev.busy), old(dev.mask),
                Routed(dev.address, old(dev.mask), channel, WriteEvent(target, bytes),
                       dev.bus.replies, old(|dev.bus.trace|))), r)
    {
      r := Route(WriteEvent(target, bytes));
    }

    method WriteRead(target: Byte, bytes: seq<Byte>, len: nat) returns (r: Result<()>)
      requires Valid()
      modifies dev, dev.bus
      ensures Valid()
      ensures dev.Performed(OnAcquired(old(dev.busy), old(dev.mask),
                Routed(dev.address, old(dev.mask), channel, WriteReadEvent(target, bytes, len),
                       dev.bus.replies, old(|dev.bus.trace|))), r)
    {
      r := Route(WriteReadEvent(target, bytes, len));
    }
  }

  /** The handles of a switch, one per channel in channel order, each bound
      to its one-hot mask; nothing goes on the bus. */
  method Split(dev: Xca954xa) returns (parts: seq<I2cSlave>)
    requires dev.Valid()
    ensures |parts| == Channels(dev.variant)
    ensures forall i :: 0 <= i < |parts| ==> parts[i].dev == dev && parts[i].channel == 1 << i
    ensures forall i :: 0 <= i < |parts| ==> parts[i].Valid() && fresh(parts[i])
    ensures forall i, j :: 0 <= i < j < |parts| ==> parts[i].channel != parts[j].channel
  {
    var masks := HandleMasks(dev.variant);
    parts := [];
    for i := 0 to |masks|
      invariant |parts| == i
      invariant forall j :: 0 <= j < i ==> parts[j].dev == dev && parts[j].channel == masks[j]
      invariant forall j :: 0 <= j < i ==> fresh(parts[j])
    {
      var handle := new I2cSlave(dev, masks[i]);
      parts := parts + [handle];
    }
  }
}
