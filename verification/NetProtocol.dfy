/**
  Acknowledged delivery (core/net.c) between devices on one link that may lose,
  duplicate, reorder and pad frames, but not invent frames of this protocol.
 */
module NetProtocol {
  import opened Options
  import opened Words
  import opened NetFrames

  const ATTEMPTS: nat := 10
  const SEQ_LIMIT: nat := 0x1_0000_0000_0000_0000

  /** One call of net_send_message_reliable_to. */
  datatype Request = Request(dest: Mac, mtype: u64, data: u64)

  /** One message net_poll_receive_message returned to its caller. */
  datatype Delivery = Delivery(src: Mac, seqno: nat, mtype: u64, data: u64)

  /** Sending: attempt number `attempt` of request `seqno` is under way, already transmitted if `polling`. */
  datatype Mode = Idle | Sending(seqno: nat, attempt: nat, polling: bool)

  /**
    `requests` records every reliable send so far, so next_seq is its length
    plus one; `acked` holds the sequence numbers for which the call returned 0.
   */
  datatype Device = Device(mac: Mac, requests: seq<Request>, mode: Mode, delivered: seq<Delivery>, acked: set<nat>)

  /** `wire` is every frame ever transmitted: any of them may arrive at any time, any number of times, or never. */
  datatype Net = Net(devices: seq<Device>, wire: set<seq<byte>>)

  datatype Event =
    | SendPlain(d: nat, dest: Mac, mtype: u64, data: u64, slot: u64)
    | StartReliable(d: nat, request: Request)
    | Transmit(d: nat, slot: u64)
    | PollAck(d: nat, got: Option<seq<byte>>)
    | PollMessage(d: nat, got: Option<seq<byte>>, slot: u64)
    | OtherTraffic(bytes: seq<byte>)

  /** A NIC does not hear itself; with destination filtering it hears only what is addressed to it or to everybody. */
  predicate Hears(mac: Mac, filter: bool, f: Frame) {
    f.src != mac && (filter ==> f.dest == mac || f.dest == BROADCAST)
  }

  /** Bytes b can be what a poll on the device returns: a transmitted frame, possibly padded. */
  ghost predicate CanArrive(net: Net, mac: Mac, filter: bool, b: seq<byte>) {
    && |b| <= RECEIVE_BUFFER
    && exists w :: w in net.wire && w <= b && (Decode(w).Some? ==> Hears(mac, filter, Decode(w).value))
  }

  ghost predicate Enabled(net: Net, filter: bool, e: Event) {
    match e
    case SendPlain(d, _, _, _, _) => d < |net.devices| && net.devices[d].mode.Idle?
    case StartReliable(d, _) =>
      d < |net.devices| && net.devices[d].mode.Idle? && |net.devices[d].requests| + 1 < SEQ_LIMIT
    case Transmit(d, _) => d < |net.devices| && net.devices[d].mode.Sending? && !net.devices[d].mode.polling
    case PollAck(d, got) =>
      && d < |net.devices| && net.devices[d].mode.Sending? && net.devices[d].mode.polling
      && (got.Some? ==> CanArrive(net, net.devices[d].mac, filter, got.value))
    case PollMessage(d, got, _) =>
      && d < |net.devices| && net.devices[d].mode.Idle?
      && (got.Some? ==> CanArrive(net, net.devices[d].mac, filter, got.value))
    case OtherTraffic(bytes) => |bytes| >= 14 && !OurType(bytes)
  }

  function Put(net: Net, d: nat, dev: Device): Net
    requires d < |net.devices|
  {
    net.(devices := net.devices[d := dev])
  }

  function OnWire(net: Net, f: Frame): Net {
    net.(wire := net.wire + {Encode(f)})
  }

  predicate ModeOk(dev: Device) {
    dev.mode.Sending? ==> 1 <= dev.mode.seqno <= |dev.requests| && dev.mode.seqno < SEQ_LIMIT
  }

  ghost predicate ModesOk(net: Net) {
    forall d :: 0 <= d < |net.devices| ==> ModeOk(net.devices[d])
  }

  /** The frame a reliable send (re)transmits. */
  function RequestFrame(dev: Device, slot: u64): Frame
    requires dev.mode.Sending? && ModeOk(dev)
  {
    var r := dev.requests[dev.mode.seqno - 1];
    Frame(r.dest, dev.mac, r.mtype, r.data, slot, dev.mode.seqno, false)
  }

  /** The ACK the retry loop waits for: this sequence number, from the device addressed. */
  predicate Answers(dev: Device, f: Option<Frame>)
    requires dev.mode.Sending? && ModeOk(dev)
  {
    f.Some? && f.value.isAck && f.value.seqno == dev.mode.seqno && f.value.src == dev.requests[dev.mode.seqno - 1].dest
  }

  /** One poll of the retry loop: the matching ACK ends it with 0, ten misses end it with -1. */
  function AfterPoll(dev: Device, f: Option<Frame>): Device
    requires dev.mode.Sending? && ModeOk(dev)
  {
    if Answers(dev, f) then dev.(mode := Idle, acked := dev.acked + {dev.mode.seqno})
    else if dev.mode.attempt + 1 == ATTEMPTS then dev.(mode := Idle)
    else dev.(mode := Sending(dev.mode.seqno, dev.mode.attempt + 1, false))
  }

  /** net_poll_receive_message: a DATA frame is acknowledged and handed to the caller, anything else is not a message. */
  function AfterReceive(net: Net, d: nat, f: Option<Frame>, slot: u64): Net
    requires d < |net.devices|
  {
    if f.None? || f.value.isAck then net
    else
      var dev := net.devices[d];
      var m := Delivery(f.value.src, f.value.seqno, f.value.mtype, f.value.data);
      OnWire(Put(net, d, dev.(delivered := dev.delivered + [m])),
             Frame(f.value.src, dev.mac, 0, 0, slot, f.value.seqno, true))
  }

  function Decoded(got: Option<seq<byte>>): Option<Frame> {
    if got.None? then None else Decode(got.value)
  }

  ghost function Step(net: Net, filter: bool, e: Event): Net
    requires ModesOk(net) && Enabled(net, filter, e)
  {
    match e
    case SendPlain(d, dest, mtype, data, slot) =>
      OnWire(net, Frame(dest, net.devices[d].mac, mtype, data, slot, 0, false))
    case StartReliable(d, request) =>
      var dev := net.devices[d];
      Put(net, d, dev.(requests := dev.requests + [request], mode := Sending(|dev.requests| + 1, 0, false)))
    case Transmit(d, slot) =>
      var dev := net.devices[d];
      assert ModeOk(dev);
      OnWire(Put(net, d, dev.(mode := dev.mode.(polling := true))), RequestFrame(dev, slot))
    case PollAck(d, got) =>
      assert ModeOk(net.devices[d]);
      Put(net, d, AfterPoll(net.devices[d], Decoded(got)))
    case PollMessage(d, got, slot) => AfterReceive(net, d, Decoded(got), slot)
    case OtherTraffic(bytes) => net.(wire := net.wire + {bytes})
  }

  // ---- runs -----------------------------------------------------------------------------

  ghost predicate IsRun(ns: seq<Net>, filter: bool, es: seq<Event>) {
    && |ns| == |es| + 1
    && (forall i {:trigger es[i]} :: 0 <= i < |es| ==>
          ModesOk(ns[i]) && Enabled(ns[i], filter, es[i]) && ns[i + 1] == Step(ns[i], filter, es[i]))
  }

  /** Devices just booted, with different MAC addresses, none of them the broadcast address. */
  ghost predicate Initial(net: Net, macs: seq<Mac>) {
    && |net.devices| == |macs|
    && (forall d :: 0 <= d < |macs| ==> net.devices[d] == Device(macs[d], [], Idle, [], {}))
    && net.wire == {}
  }

  ghost predicate MacsOk(macs: seq<Mac>) {
    && (forall i, j :: 0 <= i < j < |macs| ==> macs[i] != macs[j])
    && (forall i :: 0 <= i < |macs| ==> macs[i] != BROADCAST)
  }

  /** Device j really handed message m to a caller of net_poll_receive_message. */
  predicate WasDelivered(net: Net, mac: Mac, m: Delivery) {
    exists j :: 0 <= j < |net.devices| && net.devices[j].mac == mac && m in net.devices[j].delivered
  }

  /** Request number q of device d, as its destination would see it. */
  function AsDelivery(dev: Device, q: nat): Delivery
    requires 1 <= q <= |dev.requests|
  {
    Delivery(dev.mac, q, dev.requests[q - 1].mtype, dev.requests[q - 1].data)
  }

  /** Every reliable send that returned 0 was delivered, exactly as sent, to the device it was addressed to. */
  ghost predicate Sound(net: Net) {
    forall d, q :: 0 <= d < |net.devices| && q in net.devices[d].acked ==>
      && 1 <= q <= |net.devices[d].requests|
      && WasDelivered(net, net.devices[d].requests[q - 1].dest, AsDelivery(net.devices[d], q))
  }

  // ---- the invariant ------------------------------------------------------------------------

  /** Some device has this address. */
  predicate DeviceAt(macs: seq<Mac>, mac: Mac, d: nat) {
    d < |macs| && macs[d] == mac
  }

  /** A DATA frame of device d carries the request with its sequence number; 0 marks plain sends. */
  predicate DataOk(net: Net, d: nat, f: Frame)
    requires d < |net.devices|
  {
    f.seqno == 0 || (f.seqno <= |net.devices[d].requests|
                     && f.mtype == net.devices[d].requests[f.seqno - 1].mtype
                     && f.data == net.devices[d].requests[f.seqno - 1].data)
  }

  /** An ACK for a reliable send of device d was caused by a delivery at the ACK's source. */
  predicate AckOk(net: Net, d: nat, f: Frame)
    requires d < |net.devices|
  {
    f.dest != f.src
    && (f.seqno == 0 || (f.seqno <= |net.devices[d].requests|
                         && WasDelivered(net, f.src, AsDelivery(net.devices[d], f.seqno))))
  }

  ghost predicate FrameOk(net: Net, macs: seq<Mac>, f: Frame)
    requires |net.devices| == |macs|
  {
    && (exists d: nat :: DeviceAt(macs, f.src, d))
    && (if f.isAck then exists d: nat :: DeviceAt(macs, f.dest, d) && AckOk(net, d, f)
        else exists d: nat :: DeviceAt(macs, f.src, d) && DataOk(net, d, f))
  }

  ghost predicate WireOk(net: Net, macs: seq<Mac>)
    requires |net.devices| == |macs|
  {
    forall w :: w in net.wire ==>
      if OurType(w) then exists f :: w == Encode(f) && FrameOk(net, macs, f) else |w| >= 14
  }

  ghost predicate NetInv(net: Net, macs: seq<Mac>) {
    && |net.devices| == |macs| && MacsOk(macs)
    && (forall d :: 0 <= d < |macs| ==> net.devices[d].mac == macs[d])
    && ModesOk(net)
    && WireOk(net, macs)
    && Sound(net)
  }

  /** Devices only ever gain requests and deliveries. */
  ghost predicate Grows(net: Net, net': Net) {
    && |net'.devices| == |net.devices|
    && forall d :: 0 <= d < |net.devices| ==>
         && net'.devices[d].mac == net.devices[d].mac
         && net.devices[d].requests <= net'.devices[d].requests
         && net.devices[d].delivered <= net'.devices[d].delivered
  }

  lemma DeliveredStays(net: Net, net': Net, mac: Mac, m: Delivery)
    requires Grows(net, net') && WasDelivered(net, mac, m)
    ensures WasDelivered(net', mac, m)
  {
    var j :| 0 <= j < |net.devices| && net.devices[j].mac == mac && m in net.devices[j].delivered;
    assert m in net'.devices[j].delivered;
  }

  lemma FrameStaysOk(net: Net, net': Net, macs: seq<Mac>, f: Frame)
    requires |net.devices| == |macs| && Grows(net, net') && FrameOk(net, macs, f)
    ensures FrameOk(net', macs, f)
  {
    if f.isAck {
      var d: nat :| DeviceAt(macs, f.dest, d) && AckOk(net, d, f);
      if f.seqno != 0 {
        DeliveredStays(net, net', f.src, AsDelivery(net.devices[d], f.seqno));
        assert AsDelivery(net'.devices[d], f.seqno) == AsDelivery(net.devices[d], f.seqno);
      }
      assert AckOk(net', d, f);
    } else {
      var d: nat :| DeviceAt(macs, f.src, d) && DataOk(net, d, f);
      assert DataOk(net', d, f);
    }
  }

  lemma WireStaysOk(net: Net, net': Net, macs: seq<Mac>)
    requires |net.devices| == |macs| && WireOk(net, macs) && Grows(net, net') && net'.wire == net.wire
    ensures WireOk(net', macs)
  {
    forall w | w in net'.wire && OurType(w)
      ensures exists f :: w == Encode(f) && FrameOk(net', macs, f)
    {
      var f :| w == Encode(f) && FrameOk(net, macs, f);
      FrameStaysOk(net, net', macs, f);
    }
  }

  lemma SoundStays(net: Net, net': Net)
    requires Sound(net) && Grows(net, net') && forall d :: 0 <= d < |net.devices| ==> net'.devices[d].acked == net.devices[d].acked
    ensures Sound(net')
  {
    forall d, q | 0 <= d < |net'.devices| && q in net'.devices[d].acked
      ensures 1 <= q <= |net'.devices[d].requests|
              && WasDelivered(net', net'.devices[d].requests[q - 1].dest, AsDelivery(net'.devices[d], q))
    {
      assert q in net.devices[d].acked;
      DeliveredStays(net, net', net.devices[d].requests[q - 1].dest, AsDelivery(net.devices[d], q));
    }
  }

  lemma TransmitOk(net: Net, macs: seq<Mac>, f: Frame)
    requires NetInv(net, macs) && FrameOk(net, macs, f)
    ensures NetInv(OnWire(net, f), macs)
  {
    var net' := OnWire(net, f);
    forall w | w in net'.wire && OurType(w)
      ensures exists g :: w == Encode(g) && FrameOk(net', macs, g)
    {
      if w == Encode(f) && w !in net.wire {
        FrameStaysOk(net, net', macs, f);
      } else {
        var g :| w == Encode(g) && FrameOk(net, macs, g);
        FrameStaysOk(net, net', macs, g);
      }
    }
    SoundStays(net, net');
  }

  lemma PaddedFrame(f: Frame, b: seq<byte>)
    requires Encode(f) <= b
    ensures Decode(b) == Some(f) && Decode(Encode(f)) == Some(f)
  {
    var w := Encode(f);
    FrameRoundTrip(f, b[|w|..]);
    FrameRoundTrip(f, []);
    assert b == w + b[|w|..];
    assert w == w + [];
  }

  /** What arrives and decodes is a frame that some device transmitted and this one hears. */
  lemma ArrivedFrame(net: Net, macs: seq<Mac>, mac: Mac, filter: bool, b: seq<byte>)
    requires |net.devices| == |macs| && WireOk(net, macs) && CanArrive(net, mac, filter, b) && Decode(b).Some?
    ensures FrameOk(net, macs, Decode(b).value) && Hears(mac, filter, Decode(b).value)
  {
    var w :| w in net.wire && w <= b && (Decode(w).Some? ==> Hears(mac, filter, Decode(w).value));
    assert OurType(w);
    var f :| w == Encode(f) && FrameOk(net, macs, f);
    PaddedFrame(f, b);
  }

  // ---- soundness ----------------------------------------------------------------------------

  /** The protocol is safe with destination filtering, or with only two devices on the link. */
  predicate LinkOk(macs: seq<Mac>, filter: bool) {
    filter || |macs| <= 2
  }

  /** An ACK a device accepts was really meant for it. */
  lemma AckIsMine(macs: seq<Mac>, filter: bool, d: nat, f: Frame)
    requires MacsOk(macs) && LinkOk(macs, filter) && d < |macs| && Hears(macs[d], filter, f)
    requires f.dest != f.src && (exists i: nat :: DeviceAt(macs, f.src, i)) && exists i: nat :: DeviceAt(macs, f.dest, i)
    ensures f.dest == macs[d]
  {
    var i: nat :| DeviceAt(macs, f.src, i);
    var j: nat :| DeviceAt(macs, f.dest, j);
    assert i != d && i != j;
  }

  lemma AckedWasDelivered(net: Net, macs: seq<Mac>, filter: bool, d: nat, f: Frame)
    requires NetInv(net, macs) && LinkOk(macs, filter) && d < |macs|
    requires FrameOk(net, macs, f) && Hears(macs[d], filter, f) && f.isAck && 1 <= f.seqno <= |net.devices[d].requests|
    ensures WasDelivered(net, f.src, AsDelivery(net.devices[d], f.seqno))
  {
    var j: nat :| DeviceAt(macs, f.dest, j) && AckOk(net, j, f);
    AckIsMine(macs, filter, d, f);
    assert macs[j] == macs[d];
  }

  lemma PollAckKeeps(net: Net, macs: seq<Mac>, filter: bool, d: nat, f: Option<Frame>)
    requires NetInv(net, macs) && LinkOk(macs, filter) && d < |macs| && net.devices[d].mode.Sending?
    requires f.Some? ==> FrameOk(net, macs, f.value) && Hears(macs[d], filter, f.value)
    ensures NetInv(Put(net, d, AfterPoll(net.devices[d], f)), macs)
  {
    var dev := net.devices[d];
    var net' := Put(net, d, AfterPoll(dev, f));
    assert Grows(net, net');
    WireStaysOk(net, net', macs);
    if Answers(dev, f) {
      AckedWasDelivered(net, macs, filter, d, f.value);
    }
    PollAckSound(net, d, f);
  }

  lemma PollAckSound(net: Net, d: nat, f: Option<Frame>)
    requires ModesOk(net) && Sound(net) && d < |net.devices| && net.devices[d].mode.Sending?
    requires Answers(net.devices[d], f) ==>
               WasDelivered(net, f.value.src, AsDelivery(net.devices[d], f.value.seqno))
    ensures Sound(Put(net, d, AfterPoll(net.devices[d], f)))
  {
    var net' := Put(net, d, AfterPoll(net.devices[d], f));
    assert Grows(net, net');
    forall i, q | 0 <= i < |net'.devices| && q in net'.devices[i].acked
      ensures 1 <= q <= |net'.devices[i].requests|
              && WasDelivered(net', net'.devices[i].requests[q - 1].dest, AsDelivery(net'.devices[i], q))
    {
      assert net'.devices[i].requests == net.devices[i].requests && net'.devices[i].mac == net.devices[i].mac;
      assert ModeOk(net.devices[d]);
      DeliveredStays(net, net', net.devices[i].requests[q - 1].dest, AsDelivery(net.devices[i], q));
    }
  }

  /** The state between handing a message over and acknowledging it. */
  lemma DeliverKeeps(net: Net, macs: seq<Mac>, d: nat, m: Delivery)
    requires NetInv(net, macs) && d < |macs|
    ensures NetInv(Put(net, d, net.devices[d].(delivered := net.devices[d].delivered + [m])), macs)
  {
    var net1 := Put(net, d, net.devices[d].(delivered := net.devices[d].delivered + [m]));
    assert Grows(net, net1);
    WireStaysOk(net, net1, macs);
    SoundStays(net, net1);
  }

  /** The automatic ACK speaks the truth: its sender has just handed the message over. */
  lemma AutoAckOk(net: Net, macs: seq<Mac>, d: nat, f: Frame, net1: Net, ack: Frame)
    requires NetInv(net, macs) && d < |macs| && FrameOk(net, macs, f) && !f.isAck && f.src != net.devices[d].mac
    requires var dev, m := net.devices[d], Delivery(f.src, f.seqno, f.mtype, f.data);
             net1 == Put(net, d, dev.(delivered := dev.delivered + [m]))
    requires ack == Frame(f.src, net.devices[d].mac, 0, 0, ack.sender, f.seqno, true)
    ensures FrameOk(net1, macs, ack)
  {
    var m := Delivery(f.src, f.seqno, f.mtype, f.data);
    var i: nat :| DeviceAt(macs, f.src, i) && DataOk(net, i, f);
    if f.seqno != 0 {
      assert m == AsDelivery(net1.devices[i], f.seqno);
      assert m in net1.devices[d].delivered;
      assert WasDelivered(net1, ack.src, m);
    }
    assert AckOk(net1, i, ack) && DeviceAt(macs, ack.dest, i) && DeviceAt(macs, ack.src, d);
  }

  lemma PollMessageKeeps(net: Net, macs: seq<Mac>, filter: bool, d: nat, f: Option<Frame>, slot: u64)
    requires NetInv(net, macs) && d < |macs|
    requires f.Some? ==> FrameOk(net, macs, f.value) && Hears(macs[d], filter, f.value)
    ensures NetInv(AfterReceive(net, d, f, slot), macs)
  {
    if f.Some? && !f.value.isAck {
      var f := f.value;
      var dev := net.devices[d];
      var m := Delivery(f.src, f.seqno, f.mtype, f.data);
      DeliverKeeps(net, macs, d, m);
      var net1 := Put(net, d, dev.(delivered := dev.delivered + [m]));
      var ack := Frame(f.src, dev.mac, 0, 0, slot, f.seqno, true);
      AutoAckOk(net, macs, d, f, net1, ack);
      TransmitOk(net1, macs, ack);
    }
  }

  lemma SendKeeps(net: Net, macs: seq<Mac>, filter: bool, e: Event)
    requires NetInv(net, macs) && Enabled(net, filter, e) && (e.SendPlain? || e.Transmit?)
    ensures NetInv(Step(net, filter, e), macs)
  {
    var dev := net.devices[e.d];
    if e.SendPlain? {
      var f := Frame(e.dest, dev.mac, e.mtype, e.data, e.slot, 0, false);
      assert DeviceAt(macs, f.src, e.d) && DataOk(net, e.d, f);
      TransmitOk(net, macs, f);
    } else {
      var net1 := Put(net, e.d, dev.(mode := dev.mode.(polling := true)));
      assert Grows(net, net1);
      WireStaysOk(net, net1, macs);
      SoundStays(net, net1);
      var f := RequestFrame(dev, e.slot);
      assert DeviceAt(macs, f.src, e.d) && DataOk(net1, e.d, f);
      TransmitOk(net1, macs, f);
    }
  }

  lemma StartKeeps(net: Net, macs: seq<Mac>, filter: bool, e: Event)
    requires NetInv(net, macs) && Enabled(net, filter, e) && (e.StartReliable? || e.OtherTraffic?)
    ensures NetInv(Step(net, filter, e), macs)
  {
    var net' := Step(net, filter, e);
    assert Grows(net, net');
    if e.StartReliable? {
      WireStaysOk(net, net', macs);
    } else {
      forall w | w in net'.wire && OurType(w)
        ensures exists f :: w == Encode(f) && FrameOk(net', macs, f)
      {
        var f :| w == Encode(f) && FrameOk(net, macs, f);
        FrameStaysOk(net, net', macs, f);
      }
    }
    SoundStays(net, net');
  }

  lemma StepKeeps(net: Net, macs: seq<Mac>, filter: bool, e: Event)
    requires NetInv(net, macs) && LinkOk(macs, filter) && Enabled(net, filter, e)
    ensures NetInv(Step(net, filter, e), macs)
  {
    if e.PollAck? || e.PollMessage? {
      if Decoded(e.got).Some? {
        ArrivedFrame(net, macs, macs[e.d], filter, e.got.value);
      }
      if e.PollAck? {
        PollAckKeeps(net, macs, filter, e.d, Decoded(e.got));
      } else {
        PollMessageKeeps(net, macs, filter, e.d, Decoded(e.got), e.slot);
      }
    } else if e.SendPlain? || e.Transmit? {
      SendKeeps(net, macs, filter, e);
    } else {
      StartKeeps(net, macs, filter, e);
    }
  }

  lemma RunStep(ns: seq<Net>, macs: seq<Mac>, filter: bool, es: seq<Event>, i: nat)
    requires IsRun(ns, filter, es) && i < |es| && LinkOk(macs, filter) && NetInv(ns[i], macs)
    ensures NetInv(ns[i + 1], macs)
  {
    StepKeeps(ns[i], macs, filter, es[i]);
  }

  lemma {:induction false} RunKeeps(ns: seq<Net>, macs: seq<Mac>, filter: bool, es: seq<Event>, n: nat)
    requires IsRun(ns, filter, es) && MacsOk(macs) && Initial(ns[0], macs) && LinkOk(macs, filter) && n < |ns|
    ensures NetInv(ns[n], macs)
  {
    if n > 0 {
      RunKeeps(ns, macs, filter, es, n - 1);
      RunStep(ns, macs, filter, es, n - 1);
    }
  }

  /**
    Reliable send is sound: with destination filtering or at most two devices, a
    return of 0 means that the addressed device's receive call really returned
    exactly this message from this device, even if both sides send at once.
   */
  lemma ReliableSendIsSound(ns: seq<Net>, macs: seq<Mac>, filter: bool, es: seq<Event>, n: nat)
    requires IsRun(ns, filter, es) && MacsOk(macs) && Initial(ns[0], macs) && LinkOk(macs, filter) && n < |ns|
    ensures Sound(ns[n])
  {
    RunKeeps(ns, macs, filter, es, n);
  }

  // ---- the condition is exact -------------------------------------------------------------------

  ghost predicate SoundOnLink(macs: seq<Mac>, filter: bool) {
    forall ns, es :: IsRun(ns, filter, es) && Initial(ns[0], macs) ==> Sound(ns[|es|])
  }

  lemma SelfDecodes(f: Frame)
    ensures Decode(Encode(f)) == Some(f)
  {
    PaddedFrame(f, Encode(f));
  }

  /** A transmitted frame can arrive, as it is, at a device that hears it. */
  lemma Arrives(net: Net, mac: Mac, filter: bool, f: Frame)
    requires Encode(f) in net.wire && Hears(mac, filter, f)
    ensures CanArrive(net, mac, filter, Encode(f)) && Decoded(Some(Encode(f))) == Some(f)
  {
    SelfDecodes(f);
    assert Encode(f) <= Encode(f);
  }

  /** After a start and a transmission by device d, whatever else is on the wire. */
  function AfterSending(net: Net, d: nat, r: Request): Net
    requires d < |net.devices| && |net.devices[d].requests| + 1 < SEQ_LIMIT
  {
    var dev := net.devices[d];
    var q := |dev.requests| + 1;
    OnWire(Put(net, d, dev.(requests := dev.requests + [r], mode := Sending(q, 0, true))),
           Frame(r.dest, dev.mac, r.mtype, r.data, 0, q, false))
  }

  lemma SendingRun(net: Net, filter: bool, d: nat, r: Request) returns (mid: Net)
    requires ModesOk(net) && d < |net.devices| && net.devices[d].mode.Idle? && |net.devices[d].requests| + 1 < SEQ_LIMIT
    ensures Enabled(net, filter, StartReliable(d, r)) && mid == Step(net, filter, StartReliable(d, r)) && ModesOk(mid)
    ensures Enabled(mid, filter, Transmit(d, 0)) && Step(mid, filter, Transmit(d, 0)) == AfterSending(net, d, r)
    ensures ModesOk(AfterSending(net, d, r))
  {
    mid := Step(net, filter, StartReliable(d, r));
    assert AfterSending(net, d, r).devices == Step(mid, filter, Transmit(d, 0)).devices;
  }

  function Last(ns: seq<Net>): Net
    requires |ns| > 0
  {
    ns[|ns| - 1]
  }

  lemma Extend(ns: seq<Net>, filter: bool, es: seq<Event>, e: Event)
    requires IsRun(ns, filter, es) && ModesOk(Last(ns)) && Enabled(Last(ns), filter, e)
    ensures IsRun(ns + [Step(Last(ns), filter, e)], filter, es + [e])
  {
    var ns', es' := ns + [Step(Last(ns), filter, e)], es + [e];
    forall i | 0 <= i < |es'|
      ensures ModesOk(ns'[i]) && Enabled(ns'[i], filter, es'[i]) && ns'[i + 1] == Step(ns'[i], filter, es'[i])
    {
      if i < |es| {
        assert es[i] == es'[i];
      }
    }
  }

  lemma ExtendSending(ns: seq<Net>, filter: bool, es: seq<Event>, d: nat, r: Request) returns (ns': seq<Net>, es': seq<Event>)
    requires IsRun(ns, filter, es) && ModesOk(Last(ns)) && d < |Last(ns).devices|
    requires Last(ns).devices[d].mode.Idle? && |Last(ns).devices[d].requests| + 1 < SEQ_LIMIT
    ensures IsRun(ns', filter, es') && ns'[0] == ns[0]
    ensures Last(ns') == AfterSending(Last(ns), d, r) && ModesOk(Last(ns'))
  {
    var mid := SendingRun(Last(ns), filter, d, r);
    Extend(ns, filter, es, StartReliable(d, r));
    ns', es' := ns + [mid], es + [StartReliable(d, r)];
    Extend(ns', filter, es', Transmit(d, 0));
    ns', es' := ns' + [AfterSending(Last(ns), d, r)], es' + [Transmit(d, 0)];
  }

  /** A device takes a frame it hears off the wire. */
  lemma ExtendReceiving(ns: seq<Net>, filter: bool, es: seq<Event>, d: nat, f: Frame) returns (ns': seq<Net>, es': seq<Event>)
    requires IsRun(ns, filter, es) && ModesOk(Last(ns)) && d < |Last(ns).devices| && Last(ns).devices[d].mode.Idle?
    requires Encode(f) in Last(ns).wire && Hears(Last(ns).devices[d].mac, filter, f)
    ensures IsRun(ns', filter, es') && ns'[0] == ns[0] && Last(ns') == AfterReceive(Last(ns), d, Some(f), 0)
  {
    Arrives(Last(ns), Last(ns).devices[d].mac, filter, f);
    var e := PollMessage(d, Some(Encode(f)), 0);
    Extend(ns, filter, es, e);
    ns', es' := ns + [Step(Last(ns), filter, e)], es + [e];
  }

  /** Device 2 sends to device 1, which receives the message and puts its ACK on the wire. */
  lemma FirstExchange(macs: seq<Mac>) returns (ns: seq<Net>, es: seq<Event>)
    requires MacsOk(macs) && |macs| >= 3
    ensures IsRun(ns, false, es) && Initial(ns[0], macs) && ModesOk(Last(ns)) && |Last(ns).devices| == |macs|
    ensures forall i :: 0 <= i < |macs| ==> Last(ns).devices[i].mac == macs[i]
    ensures Last(ns).devices[0] == Device(macs[0], [], Idle, [], {})
    ensures Last(ns).devices[1].delivered == [Delivery(macs[2], 1, 0, 0)]
    ensures Encode(Frame(macs[2], macs[1], 0, 0, 0, 1, true)) in Last(ns).wire
  {
    var n0 := Net(seq(|macs|, i requires 0 <= i < |macs| => Device(macs[i], [], Idle, [], {})), {});
    ns, es := ExtendSending([n0], false, [], 2, Request(macs[1], 0, 0));
    var n2 := Last(ns);
    var data := Frame(macs[1], macs[2], 0, 0, 0, 1, false);
    assert macs[1] != macs[2];
    assert n2.devices[1] == Device(macs[1], [], Idle, [], {});
    ns, es := ExtendReceiving(ns, false, es, 1, data);
  }

  /**
    Without filtering, a third device breaks it: the ACK another sender is owed
    is overheard by a sender that happens to wait for the same number.
   */
  lemma OverheardAck(macs: seq<Mac>) returns (ns: seq<Net>, es: seq<Event>)
    requires MacsOk(macs) && |macs| >= 3
    ensures IsRun(ns, false, es) && Initial(ns[0], macs) && !Sound(ns[|es|])
  {
    ns, es := FirstExchange(macs);
    var n3 := Last(ns);
    ns, es := ExtendSending(ns, false, es, 0, Request(macs[1], 7, 0));
    var n5 := Last(ns);
    var ack := Frame(macs[2], macs[1], 0, 0, 0, 1, true);
    assert macs[0] != macs[1];
    Arrives(n5, macs[0], false, ack);
    var e := PollAck(0, Some(Encode(ack)));
    Extend(ns, false, es, e);
    var n6 := Put(n5, 0, AfterPoll(n5.devices[0], Some(ack)));
    assert n6 == Step(n5, false, e);
    ns, es := ns + [n6], es + [e];
    assert 1 in n6.devices[0].acked && AsDelivery(n6.devices[0], 1) == Delivery(macs[0], 1, 7, 0);
    assert n6.devices[1].delivered == [Delivery(macs[2], 1, 0, 0)];
    NotDelivered(macs, n6, Delivery(macs[0], 1, 7, 0));
  }

  lemma NotDelivered(macs: seq<Mac>, net: Net, m: Delivery)
    requires MacsOk(macs) && |macs| >= 2 && |net.devices| == |macs|
    requires forall i :: 0 <= i < |macs| ==> net.devices[i].mac == macs[i]
    requires m !in net.devices[1].delivered
    ensures !WasDelivered(net, macs[1], m)
  {
  }

  /** Soundness holds on exactly the links with destination filtering or at most two devices. */
  lemma SoundExactly(macs: seq<Mac>, filter: bool)
    requires MacsOk(macs)
    ensures SoundOnLink(macs, filter) <==> LinkOk(macs, filter)
  {
    if LinkOk(macs, filter) {
      forall ns, es | IsRun(ns, filter, es) && Initial(ns[0], macs)
        ensures Sound(ns[|es|])
      {
        ReliableSendIsSound(ns, macs, filter, es, |es|);
      }
    } else {
      var ns, es := OverheardAck(macs);
    }
  }

  // ---- the retry loop ---------------------------------------------------------------------------

  /** The first of the polls that answers request q, or |polls|. */
  function FirstAnswer(polls: seq<Option<Frame>>, dest: Mac, q: nat): (i: nat)
    ensures i <= |polls|
  {
    if polls == [] then 0
    else if polls[0].Some? && polls[0].value.isAck && polls[0].value.seqno == q && polls[0].value.src == dest then 0
    else 1 + FirstAnswer(polls[1..], dest, q)
  }

  /** The retry loop as the protocol takes it, one poll after the other. */
  function RunPolls(dev: Device, polls: seq<Option<Frame>>): Device
    requires ModeOk(dev)
    decreases |polls|
  {
    if dev.mode.Idle? || polls == [] then dev else RunPolls(AfterPoll(dev, polls[0]), polls[1..])
  }

  /** The loop ends with 0 exactly when one of its polls answers, and it always ends. */
  lemma {:induction false} RetryLoopOutcome(dev: Device, polls: seq<Option<Frame>>)
    requires dev.mode.Sending? && ModeOk(dev) && dev.mode.attempt + |polls| == ATTEMPTS && |polls| > 0
    requires dev.mode.seqno !in dev.acked
    ensures var q := dev.mode.seqno;
            && RunPolls(dev, polls).mode.Idle?
            && (q in RunPolls(dev, polls).acked <==> FirstAnswer(polls, dev.requests[q - 1].dest, q) < |polls|)
    decreases |polls|
  {
    var dev' := AfterPoll(dev, polls[0]);
    if dev'.mode.Sending? {
      RetryLoopOutcome(dev', polls[1..]);
    }
  }

  /**
    net_send_message_reliable_to, given what each of its polls will return: it
    retransmits the same frame before every poll and stops at the first answer.
   */
  method SendReliable(online: bool, mac: Mac, request: Request, q: u64, slot: u64, polls: seq<Option<seq<byte>>>)
    returns (rc: int, sent: seq<seq<byte>>)
    requires |polls| == ATTEMPTS
    ensures !online ==> rc == -1 && sent == []
    ensures online ==>
            var seen := seq(ATTEMPTS, i requires 0 <= i < ATTEMPTS => Decoded(polls[i]));
            var n := FirstAnswer(seen, request.dest, q);
            && rc == (if n < ATTEMPTS then 0 else -1)
            && |sent| == (if n < ATTEMPTS then n + 1 else ATTEMPTS)
    ensures forall i :: 0 <= i < |sent| ==>
              sent[i] == Encode(Frame(request.dest, mac, request.mtype, request.data, slot, q, false))
  {
    ghost var seen := seq(ATTEMPTS, i requires 0 <= i < ATTEMPTS => Decoded(polls[i]));
    sent := [];
    if !online {
      return -1, sent;
    }
    var attempt := 0;
    while attempt < ATTEMPTS
      invariant 0 <= attempt <= ATTEMPTS && |sent| == attempt
      invariant FirstAnswer(seen, request.dest, q) == attempt + FirstAnswer(seen[attempt..], request.dest, q)
      invariant forall i :: 0 <= i < |sent| ==>
                  sent[i] == Encode(Frame(request.dest, mac, request.mtype, request.data, slot, q, false))
    {
      var frame := BuildFrame(Frame(request.dest, mac, request.mtype, request.data, slot, q, false));
      sent := sent + [frame];
      var got := None;
      if polls[attempt].Some? {
        got := ParseFrame(polls[attempt].value);
      }
      assert got == seen[attempt];
      if got.Some? && got.value.isAck && got.value.seqno == q && got.value.src == request.dest {
        return 0, sent;
      }
      assert seen[attempt..][1..] == seen[attempt + 1..];
      attempt := attempt + 1;
    }
    return -1, sent;
  }

  /** net_poll_receive_message, given what its poll returns: a DATA frame is handed over and acknowledged to its source. */
  method ReceiveMessage(online: bool, mac: Mac, got: Option<seq<byte>>, slot: u64)
    returns (rc: int, m: Option<Delivery>, sender: u64, ack: Option<seq<byte>>)
    ensures var f := if online then Decoded(got) else None;
            if f.None? || f.value.isAck then rc == (if online then 0 else -1) && m.None? && ack.None?
            else && rc == 1 && m == Some(Delivery(f.value.src, f.value.seqno, f.value.mtype, f.value.data))
                 && sender == f.value.sender
                 && ack == Some(Encode(Frame(f.value.src, mac, 0, 0, slot, f.value.seqno, true)))
  {
    if !online {
      return -1, None, 0, None;
    }
    if got.None? {
      return 0, None, 0, None;
    }
    var f := ParseFrame(got.value);
    if f.None? || f.value.isAck {
      return 0, None, 0, None;
    }
    var frame := BuildFrame(Frame(f.value.src, mac, 0, 0, slot, f.value.seqno, true));
    return 1, Some(Delivery(f.value.src, f.value.seqno, f.value.mtype, f.value.data)), f.value.sender, Some(frame);
  }
}
