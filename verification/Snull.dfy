/**
  The snull driver run by one task: transmitting on one interface simulates the interrupts of both, and
  the other interface receives in its interrupt handler or, under NAPI, when it is polled.
 */
module Snull {
  import opened Kernel

  const ETH_ZLEN := 60
  const ETH_HEADERS := 14 + 20

  type Frame = seq<byte>

  /** A packet buffer with what was last copied into it; `dev` is the device whose pool it belongs to. */
  datatype Packet = Packet(dev: nat, number: nat, data: Frame)

  function Frames(q: seq<Packet>): seq<Frame> {
    seq(|q|, i requires 0 <= i < |q| => q[i].data)
  }

  function TotalLength(fs: seq<Frame>): nat {
    if fs == [] then 0 else TotalLength(fs[..|fs| - 1]) + |fs[|fs| - 1]|
  }

  /** A frame as it goes out: short ones are filled up with zeros. */
  function Padded(f: Frame): (r: Frame)
    ensures |r| == Max(ETH_ZLEN, |f|) && r[..|f|] == f
    ensures forall i :: |f| <= i < |r| ==> r[i] == 0
  {
    if |f| < ETH_ZLEN then f + seq(ETH_ZLEN - |f|, _ => 0) else f
  }

  // ----- the link as a value, for reference

  /** What became of the frames sent to a device, and whether it is being polled. */
  datatype Side = Side(arrived: seq<Frame>, delivered: seq<Frame>, dropped: seq<Frame>, queue: seq<Frame>, polling: bool)
  {
    /** A frame is queued in front of those that wait. */
    function Arrive(f: Frame): Side {
      this.(arrived := arrived + [f], queue := [f] + queue)
    }

    /** The first frame of the queue is handed up, or dropped when there is no memory for it. */
    function Receive(alloc: bool): Side
      requires queue != []
    {
      if alloc then this.(queue := queue[1..], delivered := delivered + [queue[0]])
      else this.(queue := queue[1..], dropped := dropped + [queue[0]])
    }

    /** Receives frames until `quota` of them have been handed up or none are left. */
    function Drain(quota: int, alloc: nat -> bool, seen: nat): Side
      decreases |queue|
    {
      if quota <= 0 || queue == [] then this
      else Receive(alloc(seen)).Drain(if alloc(seen) then quota - 1 else quota, alloc, seen + 1)
    }

    /** Polling goes on exactly while frames are left. */
    function Poll(quota: int, alloc: nat -> bool): Side {
      var s := Drain(quota, alloc, 0);
      s.(polling := s.queue != [])
    }

    /** A frame sent by the other side: received at once, or left for a poll.  With its pool empty that side cannot send. */
    function Take(f: Frame, poolSize: nat, napi: bool, alloc: bool): Side {
      if poolSize <= |queue| then this
      else if napi then Arrive(f).(polling := true)
      else Arrive(f).Receive(alloc)
    }
  }

  /** Of the first `n` frames, those whose allocation, the `seen`-th and on, is granted or not. */
  function Chosen(q: seq<Frame>, alloc: nat -> bool, seen: nat, n: nat, granted: bool): seq<Frame>
    requires n <= |q|
  {
    if n == 0 then [] else Chosen(q, alloc, seen, n - 1, granted) + if alloc(seen + n - 1) == granted then [q[n - 1]] else []
  }

  lemma ChosenNone(q: seq<Frame>, alloc: nat -> bool, seen: nat, granted: bool)
    ensures Chosen(q, alloc, seen, 0, granted) == []
  {
  }

  lemma {:induction false} ChosenFront(q: seq<Frame>, alloc: nat -> bool, seen: nat, n: nat, granted: bool)
    requires 0 < n <= |q|
    ensures Chosen(q, alloc, seen, n, granted) == (if alloc(seen) == granted then [q[0]] else []) + Chosen(q[1..], alloc, seen + 1, n - 1, granted)
  {
    if n > 1 {
      ChosenFront(q, alloc, seen, n - 1, granted);
      assert q[1..][n - 2] == q[n - 1];
    }
  }

  /** Receiving the first frame and then `n` more. */
  lemma ReceiveChosen(s: Side, alloc: nat -> bool, seen: nat, n: nat)
    requires n < |s.queue|
    ensures var r := s.Receive(alloc(seen));
      && n <= |r.queue| && r.queue[n..] == s.queue[n + 1..]
      && r.delivered + Chosen(r.queue, alloc, seen + 1, n, true) == s.delivered + Chosen(s.queue, alloc, seen, n + 1, true)
      && r.dropped + Chosen(r.queue, alloc, seen + 1, n, false) == s.dropped + Chosen(s.queue, alloc, seen, n + 1, false)
      && |Chosen(s.queue, alloc, seen, n + 1, true)| == |Chosen(r.queue, alloc, seen + 1, n, true)| + if alloc(seen) then 1 else 0
  {
    hide Chosen;
    ChosenFront(s.queue, alloc, seen, n + 1, true);
    ChosenFront(s.queue, alloc, seen, n + 1, false);
  }

  /**
    Receiving takes frames off the front of the queue, hands up those whose own allocation is granted and drops the
    others, and stops with the first that makes up the quota, or when none is left.
   */
  lemma {:induction false} DrainTakes(s: Side, quota: int, alloc: nat -> bool, seen: nat) returns (n: nat)
    ensures n <= |s.queue|
    ensures s.Drain(quota, alloc, seen) == s.(
              queue := s.queue[n..],
              delivered := s.delivered + Chosen(s.queue, alloc, seen, n, true),
              dropped := s.dropped + Chosen(s.queue, alloc, seen, n, false))
    ensures n == |s.queue| || |Chosen(s.queue, alloc, seen, n, true)| == Max(0, quota)
    ensures 0 < n ==> |Chosen(s.queue, alloc, seen, n - 1, true)| < quota
    decreases |s.queue|
  {
    hide Chosen;
    n := 0;
    ChosenNone(s.queue, alloc, seen, true);
    ChosenNone(s.queue, alloc, seen, false);
    if 0 < quota && s.queue != [] {
      n := DrainTakes(s.Receive(alloc(seen)), if alloc(seen) then quota - 1 else quota, alloc, seen + 1);
      ReceiveChosen(s, alloc, seen, n);
      if 0 < n {
        ReceiveChosen(s, alloc, seen, n - 1);
      }
      n := n + 1;
    } else {
      assert s.queue[0..] == s.queue;
    }
  }

  datatype Event =
    | Transmit(first: bool, frame: Frame, alloc: bool)
    | PollDevice(first: bool, budget: int, quota: int, grants: nat -> bool)

  datatype World = World(first: Side, second: Side)

  /** A short frame is filled up; a poll of a device that is not to be polled does not happen. */
  function Serve(w: World, e: Event, n0: nat, n1: nat, napi: bool): World {
    match e
    case Transmit(true, frame, alloc) => w.(second := w.second.Take(Padded(frame), n0, napi, alloc))
    case Transmit(false, frame, alloc) => w.(first := w.first.Take(Padded(frame), n1, napi, alloc))
    case PollDevice(true, budget, quota, grants) =>
      if napi && w.first.polling then w.(first := w.first.Poll(Min(quota, budget), grants)) else w
    case PollDevice(false, budget, quota, grants) =>
      if napi && w.second.polling then w.(second := w.second.Poll(Min(quota, budget), grants)) else w
  }

  function ServeAll(w: World, events: seq<Event>, n0: nat, n1: nat, napi: bool): World {
    if events == [] then w
    else Serve(ServeAll(w, events[..|events| - 1], n0, n1, napi), events[|events| - 1], n0, n1, napi)
  }

  // ----- accounting

  /** What became of the frames sent to a device, with its counters. */
  datatype Books = Books(
    arrived: seq<Frame>, delivered: seq<Frame>, dropped: seq<Frame>, queue: seq<Packet>,
    rxPackets: nat, rxBytes: nat, rxDropped: nat)
  {
    /** Every frame that arrived was delivered once, dropped once, or is still queued; the counters agree. */
    ghost predicate Balanced() {
      && multiset(arrived) == multiset(delivered) + multiset(dropped) + multiset(Frames(queue))
      && rxPackets == |delivered| && rxBytes == TotalLength(delivered) && rxDropped == |dropped|
    }

    function Enqueued(p: Packet): Books {
      this.(arrived := arrived + [p.data], queue := [p] + queue)
    }

    /** The first frame of the queue is handed up, or dropped when there is no memory for it. */
    function Received(alloc: bool): Books
      requires queue != []
    {
      var f := queue[0].data;
      if alloc
      then this.(queue := queue[1..], delivered := delivered + [f], rxPackets := rxPackets + 1, rxBytes := rxBytes + |f|)
      else this.(queue := queue[1..], dropped := dropped + [f], rxDropped := rxDropped + 1)
    }
  }

  /** The frames of the books, without the buffers they are in. */
  function SideOf(b: Books, polling: bool): Side {
    Side(b.arrived, b.delivered, b.dropped, Frames(b.queue), polling)
  }

  lemma SideOfEnqueued(b: Books, p: Packet, polling: bool)
    ensures SideOf(b.Enqueued(p), polling) == SideOf(b, polling).Arrive(p.data)
  {
    FramesPush(p, b.queue);
  }

  lemma SideOfReceived(b: Books, alloc: bool, polling: bool)
    requires b.queue != []
    ensures Frames(b.queue) != [] && SideOf(b.Received(alloc), polling) == SideOf(b, polling).Receive(alloc)
  {
    FramesPush(b.queue[0], b.queue[1..]);
    assert b.queue == [b.queue[0]] + b.queue[1..];
  }

  lemma FramesPush(p: Packet, q: seq<Packet>)
    ensures Frames([p] + q) == [p.data] + Frames(q)
    ensures multiset(Frames([p] + q)) == multiset{p.data} + multiset(Frames(q))
  {
  }

  lemma TotalPush(fs: seq<Frame>, f: Frame)
    ensures TotalLength(fs + [f]) == TotalLength(fs) + |f|
  {
    assert (fs + [f])[..|fs|] == fs;
  }

  lemma EnqueueBalances(b: Books, p: Packet)
    requires b.Balanced()
    ensures b.Enqueued(p).Balanced()
    ensures b.Enqueued(p).queue == [p] + b.queue && b.Enqueued(p).arrived == b.arrived + [p.data]
  {
    FramesPush(p, b.queue);
  }

  /** Receiving a frame keeps the books, and leaves the number of frames accounted for alone. */
  lemma ReceiveBalances(b: Books, alloc: bool)
    requires b.Balanced() && b.queue != []
    ensures b.Received(alloc).Balanced() && b.Received(alloc).queue == b.queue[1..]
  {
    FramesPush(b.queue[0], b.queue[1..]);
    assert b.queue == [b.queue[0]] + b.queue[1..];
    TotalPush(b.delivered, b.queue[0].data);
  }

  /** A frame that is queued and received at once leaves the queue as it was. */
  lemma StraightThrough(b: Books, p: Packet, alloc: bool)
    requires b.Balanced()
    ensures var b' := b.Enqueued(p).Received(alloc);
      && b'.Balanced() && b'.queue == b.queue && b'.arrived == b.arrived + [p.data]
      && b'.delivered == b.delivered + (if alloc then [p.data] else [])
      && b'.dropped == b.dropped + (if alloc then [] else [p.data])
  {
    EnqueueBalances(b, p);
    ReceiveBalances(b.Enqueued(p), alloc);
  }

  /** Balanced books account for every frame that arrived. */
  lemma BalancedCounts(b: Books)
    requires b.Balanced()
    ensures |b.arrived| == b.rxPackets + b.rxDropped + |b.queue|
  {
    assert |multiset(b.arrived)| == |multiset(b.delivered)| + |multiset(b.dropped)| + |multiset(Frames(b.queue))|;
  }

  class Device {
    const id: nat
    const poolSize: nat
    var ppool: seq<Packet>
    var rxQueue: seq<Packet>
    var stopped: bool
    var rxIntr: bool
    var txIntr: bool
    var rxIntEnabled: bool
    var polling: bool
    var quota: int
    var txPacketLen: nat
    var rxPackets: nat
    var rxBytes: nat
    var rxDropped: nat
    var txPackets: nat
    var txBytes: nat

    // Frames queued to this device so far, handed to the upper layers, and dropped for lack of memory.
    ghost var arrived: seq<Frame>
    ghost var delivered: seq<Frame>
    ghost var dropped: seq<Frame>

    constructor (id: nat, poolSize: nat)
      requires 0 < poolSize
      ensures this.id == id && this.poolSize == poolSize && |ppool| == poolSize && rxQueue == []
      ensures (forall p :: p in ppool ==> p.dev == id) && (forall i, j :: 0 <= i < j < |ppool| ==> ppool[i] != ppool[j])
      ensures !stopped && !rxIntr && !txIntr && rxIntEnabled && !polling
      ensures rxPackets == rxBytes == rxDropped == txPackets == txBytes == 0
      ensures arrived == delivered == dropped == []
    {
      this.id, this.poolSize := id, poolSize;
      rxQueue, stopped, rxIntr, txIntr, rxIntEnabled, polling := [], false, false, false, true, false;
      quota, txPacketLen, rxPackets, rxBytes, rxDropped, txPackets, txBytes := 0, 0, 0, 0, 0, 0, 0;
      arrived, delivered, dropped := [], [], [];
      ppool := seq(poolSize, i requires 0 <= i < poolSize => Packet(id, poolSize - 1 - i, []));
    }

    ghost function Ledger(): Books
      reads this
    {
      Books(arrived, delivered, dropped, rxQueue, rxPackets, rxBytes, rxDropped)
    }

    ghost function View(): Side
      reads this
    {
      SideOf(Ledger(), polling)
    }

    // ----- the operations under the device lock

    method GetTxBuffer() returns (pkt: Packet)
      requires ppool != []
      modifies `ppool, `stopped
      ensures old(ppool) == [pkt] + ppool && stopped == (old(stopped) || ppool == [])
    {
      pkt := ppool[0];
      ppool := ppool[1..];
      if ppool == [] {
        stopped := true;
      }
    }

    /** Returns a buffer to this pool; one with no next buffer, which is the first to come back, restarts the queue. */
    method ReleaseBuffer(pkt: Packet)
      requires pkt.dev == id
      modifies `ppool, `stopped
      ensures ppool == [pkt] + old(ppool) && stopped == (old(stopped) && old(ppool) != [])
    {
      var next := if ppool == [] then None else Some(ppool[0]);
      ppool := [pkt] + ppool;
      if stopped && next == None {
        stopped := false;
      }
    }

    method EnqueueBuf(pkt: Packet)
      modifies `rxQueue, `arrived
      ensures Ledger() == old(Ledger()).Enqueued(pkt)
    {
      rxQueue := [pkt] + rxQueue;
      arrived := arrived + [pkt.data];
    }

    method DequeueBuf() returns (pkt: Option<Packet>)
      modifies `rxQueue
      ensures if old(rxQueue) == [] then pkt == None && rxQueue == [] else pkt == Some(old(rxQueue)[0]) && rxQueue == old(rxQueue)[1..]
    {
      if rxQueue == [] {
        return None;
      }
      pkt := Some(rxQueue[0]);
      rxQueue := rxQueue[1..];
    }

    /** Hands a received frame up, or drops it when there is no memory for it. */
    method Rx(pkt: Packet, alloc: bool)
      modifies `rxPackets, `rxBytes, `rxDropped, `delivered, `dropped
      ensures Ledger() == old(Ledger()).(queue := [pkt] + rxQueue).Received(alloc)
    {
      if !alloc {
        rxDropped := rxDropped + 1;
        dropped := dropped + [pkt.data];
        return;
      }
      rxPackets := rxPackets + 1;
      rxBytes := rxBytes + |pkt.data|;
      delivered := delivered + [pkt.data];
    }

    method TxDone()
      modifies `txPackets, `txBytes
      ensures txPackets == old(txPackets) + 1 && txBytes == old(txBytes) + txPacketLen
    {
      txPackets := txPackets + 1;
      txBytes := txBytes + txPacketLen;
    }
  }

  /** One direction of the link: what `src` sends and `dst` receives. */
  ghost predicate Link(src: Device, dst: Device, napi: bool)
    reads src, dst
  {
    && src != dst && 0 < src.poolSize
    && |src.ppool| + |dst.rxQueue| == src.poolSize
    && (src.stopped <==> src.ppool == [])
    && (forall p :: p in src.ppool ==> p.dev == src.id)
    && (forall p :: p in dst.rxQueue ==> p.dev == src.id)
    && dst.Ledger().Balanced()
    && !dst.rxIntr && !src.txIntr
    && (dst.rxIntEnabled <==> !dst.polling) && (!napi ==> !dst.polling)
  }

  /** Between handlers: what was sent has been counted, and what waits to be received is going to be polled. */
  ghost predicate Direction(src: Device, dst: Device, napi: bool)
    reads src, dst
  {
    && Link(src, dst, napi)
    && src.txPackets == |dst.arrived|
    && (dst.rxQueue != [] ==> napi && dst.polling)
  }

  // ----- the handlers

  /** One frame is received per interrupt; its buffer goes back after the device is unlocked. */
  method RegularInterrupt(dev: Device, owner: Device, alloc: bool)
    requires dev != owner && forall p :: p in dev.rxQueue ==> p.dev == owner.id
    modifies dev`rxIntr, dev`txIntr, dev`rxQueue, dev`rxPackets, dev`rxBytes, dev`rxDropped, dev`delivered, dev`dropped, dev`txPackets, dev`txBytes
    modifies owner`ppool, owner`stopped
    ensures !dev.rxIntr && !dev.txIntr
    ensures old(dev.rxIntr && dev.rxQueue != []) ==>
              && dev.Ledger() == old(dev.Ledger()).Received(alloc)
              && owner.ppool == [old(dev.rxQueue)[0]] + old(owner.ppool)
              && owner.stopped == (old(owner.stopped) && old(owner.ppool) != [])
    ensures !old(dev.rxIntr && dev.rxQueue != []) ==> dev.Ledger() == old(dev.Ledger()) && unchanged(owner)
    ensures dev.txPackets == old(dev.txPackets) + (if old(dev.txIntr) then 1 else 0)
    ensures dev.txBytes == old(dev.txBytes) + (if old(dev.txIntr) then dev.txPacketLen else 0)
  {
    var rx, tx := dev.rxIntr, dev.txIntr;
    dev.rxIntr, dev.txIntr := false, false;
    var pkt := None;
    if rx && dev.rxQueue != [] {
      pkt := Some(dev.rxQueue[0]);
      dev.rxQueue := dev.rxQueue[1..];
      dev.Rx(pkt.value, alloc);
    }
    if tx {
      dev.TxDone();
    }
    if pkt.Some? {
      owner.ReleaseBuffer(pkt.value);
    }
  }

  /** Under NAPI a receive interrupt turns itself off and asks to be polled. */
  method NapiInterrupt(dev: Device)
    modifies dev`rxIntr, dev`txIntr, dev`rxIntEnabled, dev`polling, dev`txPackets, dev`txBytes
    ensures !dev.rxIntr && !dev.txIntr
    ensures dev.rxIntEnabled == (old(dev.rxIntEnabled) && !old(dev.rxIntr)) && dev.polling == (old(dev.polling) || old(dev.rxIntr))
    ensures dev.txPackets == old(dev.txPackets) + (if old(dev.txIntr) then 1 else 0)
    ensures dev.txBytes == old(dev.txBytes) + (if old(dev.txIntr) then dev.txPacketLen else 0)
  {
    var rx, tx := dev.rxIntr, dev.txIntr;
    dev.rxIntr, dev.txIntr := false, false;
    if rx {
      dev.rxIntEnabled := false;
      dev.polling := true;
    }
    if tx {
      dev.TxDone();
    }
  }

  /** Copies the frame to a buffer and queues it at the other device. */
  method Transfer(src: Device, dst: Device, frame: Frame, napi: bool) returns (pkt: Packet)
    requires Link(src, dst, napi) && Link(dst, src, napi) && !src.stopped
    modifies src`ppool, src`stopped, dst`rxQueue, dst`arrived
    ensures Link(src, dst, napi) && Link(dst, src, napi) && |src.ppool| == |old(src.ppool)| - 1
    ensures pkt.data == frame && dst.Ledger() == old(dst.Ledger()).Enqueued(pkt)
  {
    pkt := src.GetTxBuffer();
    assert pkt == old(src.ppool)[0];
    pkt := pkt.(data := frame);
    EnqueueBalances(dst.Ledger(), pkt);
    hide Books.Balanced;
    dst.EnqueueBuf(pkt);
  }

  /** The other device is interrupted, if it listens: it receives the frame at once, or asks to be polled. */
  method Notify(src: Device, dst: Device, napi: bool, alloc: bool)
    requires Link(src, dst, napi) && Link(dst, src, napi) && dst.rxQueue != []
    modifies dst`rxIntr, dst`txIntr, dst`rxQueue, dst`rxPackets, dst`rxBytes, dst`rxDropped, dst`delivered, dst`dropped
    modifies dst`rxIntEnabled, dst`polling, dst`txPackets, dst`txBytes, src`ppool, src`stopped
    ensures Link(src, dst, napi) && Link(dst, src, napi) && unchanged(dst`txPackets, dst`txBytes)
    ensures if napi then dst.polling && dst.Ledger() == old(dst.Ledger()) && unchanged(src)
            else !dst.polling && dst.Ledger() == old(dst.Ledger()).Received(alloc) && |src.ppool| == |old(src.ppool)| + 1
  {
    hide Books.Balanced, Books.Received;
    ReceiveBalances(dst.Ledger(), alloc);
    assert old(dst.rxQueue) == [old(dst.rxQueue)[0]] + old(dst.rxQueue)[1..];
    if dst.rxIntEnabled {
      dst.rxIntr := true;
      if napi {
        NapiInterrupt(dst);
      } else {
        RegularInterrupt(dst, src, alloc);
      }
    }
  }

  /** The transmitting device is told that it is done. */
  method Complete(src: Device, dst: Device, len: nat, napi: bool, alloc: bool)
    requires Link(src, dst, napi) && Link(dst, src, napi)
    modifies src`rxIntr, src`txIntr, src`rxQueue, src`rxPackets, src`rxBytes, src`rxDropped, src`delivered, src`dropped
    modifies src`rxIntEnabled, src`polling, src`txPackets, src`txBytes, src`txPacketLen, dst`ppool, dst`stopped
    ensures Link(src, dst, napi) && Link(dst, src, napi)
    ensures src.txPackets == old(src.txPackets) + 1 && src.txBytes == old(src.txBytes) + len
    ensures src.Ledger() == old(src.Ledger()) && src.polling == old(src.polling) && unchanged(dst)
  {
    hide Books.Balanced;
    src.txPacketLen := len;
    src.txIntr := true;
    if napi {
      NapiInterrupt(src);
    } else {
      RegularInterrupt(src, dst, alloc);
    }
  }

  /**
    Moves a frame to the other device and has both interrupted.  A frame too short for its headers is
    not sent at all.
   */
  method HwTx(src: Device, dst: Device, frame: Frame, napi: bool, alloc: bool)
    requires Direction(src, dst, napi) && Direction(dst, src, napi) && !src.stopped
    modifies src, dst
    ensures Direction(src, dst, napi) && Direction(dst, src, napi)
    ensures |frame| < ETH_HEADERS ==> unchanged(src) && unchanged(dst)
    ensures ETH_HEADERS <= |frame| ==>
              && src.View() == old(src.View()) && dst.View() == old(dst.View()).Take(frame, src.poolSize, napi, alloc)
              && src.txBytes == old(src.txBytes) + |frame| && src.txPackets == old(src.txPackets) + 1
              && |src.ppool| == |old(src.ppool)| - if napi then 1 else 0
  {
    if |frame| < ETH_HEADERS {
      return;
    }
    RoomOnLink(src, dst, napi);
    hide Link, Books.Balanced, Books.Received, Books.Enqueued, Frames, SideOf, Side.Arrive, Side.Receive;
    ghost var before, listening := dst.Ledger(), dst.polling;
    ghost var pkt := Send(src, dst, frame, napi, alloc);
    SentView(before, pkt, alloc, listening);
    SentView(before, pkt, alloc, true);
  }

  /** How the books of a transmission look as a side of the link. */
  lemma SentView(b: Books, pkt: Packet, alloc: bool, polling: bool)
    ensures SideOf(b.Enqueued(pkt), polling) == SideOf(b, polling).Arrive(pkt.data)
    ensures SideOf(b.Enqueued(pkt).Received(alloc), polling) == SideOf(b, polling).Arrive(pkt.data).Receive(alloc)
  {
    SideOfEnqueued(b, pkt, polling);
    SideOfReceived(b.Enqueued(pkt), alloc, polling);
  }

  /** A device that may send has a buffer, so the other side's queue does not hold all of them. */
  lemma RoomOnLink(src: Device, dst: Device, napi: bool)
    requires Link(src, dst, napi) && !src.stopped
    ensures |dst.View().queue| < src.poolSize && (!napi ==> !dst.polling)
  {
  }

  lemma BooksOfLink(src: Device, dst: Device, napi: bool)
    requires Link(src, dst, napi)
    ensures dst.Ledger().Balanced() && src != dst
  {
  }

  /** The steps of sending: transfer, notification, completion. */
  method Send(src: Device, dst: Device, frame: Frame, napi: bool, alloc: bool) returns (ghost pkt: Packet)
    requires Direction(src, dst, napi) && Direction(dst, src, napi) && !src.stopped
    modifies src, dst
    ensures Direction(src, dst, napi) && Direction(dst, src, napi)
    ensures src.Ledger() == old(src.Ledger()) && src.polling == old(src.polling)
    ensures src.txBytes == old(src.txBytes) + |frame| && src.txPackets == old(src.txPackets) + 1
    ensures pkt.data == frame && dst.polling == napi
    ensures dst.Ledger() == if napi then old(dst.Ledger()).Enqueued(pkt) else old(dst.Ledger()).Enqueued(pkt).Received(alloc)
    ensures |src.ppool| == |old(src.ppool)| - if napi then 1 else 0
  {
    hide Link, Books.Balanced, Books.Received, Books.Enqueued, Frames;
    BooksOfLink(src, dst, napi);
    pkt := Deliver(src, dst, frame, napi, alloc);
    EnqueueBalances(old(dst.Ledger()), pkt);
    StraightThrough(old(dst.Ledger()), pkt, alloc);
    Complete(src, dst, |frame|, napi, alloc);
  }

  /** The frame is queued at the other device, which is told. */
  method Deliver(src: Device, dst: Device, frame: Frame, napi: bool, alloc: bool) returns (pkt: Packet)
    requires Link(src, dst, napi) && Link(dst, src, napi) && !src.stopped
    modifies src`ppool, src`stopped, dst
    ensures Link(src, dst, napi) && Link(dst, src, napi) && pkt.data == frame && dst.polling == napi
    ensures dst.Ledger() == if napi then old(dst.Ledger()).Enqueued(pkt) else old(dst.Ledger()).Enqueued(pkt).Received(alloc)
    ensures |src.ppool| == |old(src.ppool)| - if napi then 1 else 0
    ensures unchanged(dst`txPackets, dst`txBytes)
  {
    hide Link, Books.Balanced, Books.Received, Frames;
    pkt := Transfer(src, dst, frame, napi);
    Notify(src, dst, napi, alloc);
  }

  /** Transmits a frame of any length: short ones are filled up, so that none is ever too short to send. */
  method Tx(src: Device, dst: Device, frame: Frame, napi: bool, alloc: bool)
    requires Direction(src, dst, napi) && Direction(dst, src, napi) && !src.stopped
    modifies src, dst
    ensures Direction(src, dst, napi) && Direction(dst, src, napi)
    ensures src.View() == old(src.View()) && dst.View() == old(dst.View()).Take(Padded(frame), src.poolSize, napi, alloc)
    ensures src.txBytes == old(src.txBytes) + |Padded(frame)| && src.txPackets == old(src.txPackets) + 1
    ensures !napi ==> |src.ppool| == |old(src.ppool)| && !src.stopped
  {
    hide Books.Balanced, Frames;
    HwTx(src, dst, Padded(frame), napi, alloc);
  }

  /** Takes one frame off the queue, hands it up or drops it, and returns its buffer. */
  method PollOne(dev: Device, owner: Device, alloc: bool)
    requires Link(owner, dev, true) && Link(dev, owner, true) && dev.rxQueue != []
    modifies dev`rxQueue, dev`rxPackets, dev`rxBytes, dev`rxDropped, dev`delivered, dev`dropped, owner`ppool, owner`stopped
    ensures Link(owner, dev, true) && Link(dev, owner, true)
    ensures dev.Ledger() == old(dev.Ledger()).Received(alloc)
  {
    hide Books.Balanced;
    ReceiveBalances(dev.Ledger(), alloc);
    assert dev.rxQueue == [dev.rxQueue[0]] + dev.rxQueue[1..];
    var pkt := dev.DequeueBuf();
    dev.Rx(pkt.value, alloc);
    owner.ReleaseBuffer(pkt.value);
  }

  /**
    Polls a device: delivers up to the quota, dropping what there is no memory for, and goes back to
    interrupts once the queue is empty.  `alloc` says which allocations succeed; the loop ends even if none do.
   */
  method Poll(dev: Device, owner: Device, budget: int, alloc: nat -> bool) returns (more: bool, budget': int)
    requires Direction(owner, dev, true) && Direction(dev, owner, true) && dev.polling
    modifies dev, owner`ppool, owner`stopped
    ensures Direction(owner, dev, true) && Direction(dev, owner, true)
    ensures dev.View() == old(dev.View()).Poll(Min(old(dev.quota), budget), alloc)
    ensures budget - budget' == old(dev.quota) - dev.quota == |dev.delivered| - |old(dev.delivered)|
    ensures budget - budget' <= Max(0, Min(budget, old(dev.quota)))
    ensures more <==> dev.rxQueue != []
    ensures more ==> budget - budget' == Max(0, Min(budget, old(dev.quota)))
    ensures dev.polling == more
  {
    hide Link, Books.Balanced, Side.Drain;
    BooksOfLink(owner, dev, true);
    var npackets := Drain(dev, owner, Min(dev.quota, budget), alloc);
    budget' := budget - npackets;
    Charge(dev, owner, npackets);
    more := dev.rxQueue != [];
    if !more {
      BackToInterrupts(dev, owner);
    }
  }

  /** The loop of Poll: it delivers the whole quota unless the queue runs out, however many frames it drops. */
  method Drain(dev: Device, owner: Device, quota: int, alloc: nat -> bool) returns (npackets: nat)
    requires dev != owner && Link(owner, dev, true) && Link(dev, owner, true)
    modifies dev`rxQueue, dev`rxPackets, dev`rxBytes, dev`rxDropped, dev`delivered, dev`dropped, owner`ppool, owner`stopped
    ensures Link(owner, dev, true) && Link(dev, owner, true)
    ensures dev.View() == old(dev.View()).Drain(quota, alloc, 0)
    ensures npackets == |dev.delivered| - |old(dev.delivered)| && npackets <= Max(0, quota)
    ensures dev.rxQueue != [] ==> npackets == Max(0, quota)
  {
    hide Link, Books.Balanced, SideOf, Books.Received;
    npackets := 0;
    var seen := 0;
    while npackets < quota && dev.rxQueue != []
      invariant Link(owner, dev, true) && Link(dev, owner, true)
      invariant npackets <= Max(0, quota) && npackets == |dev.delivered| - |old(dev.delivered)|
      invariant dev.View().Drain(quota - npackets, alloc, seen) == old(dev.View()).Drain(quota, alloc, 0)
      decreases |dev.rxQueue|
    {
      ghost var before := dev.Ledger();
      SideOfReceived(before, alloc(seen), dev.polling);
      ReceivedCounts(before, alloc(seen));
      QueueOfView(dev);
      if alloc(seen) {
        npackets := npackets + 1;
      }
      PollOne(dev, owner, alloc(seen));
      seen := seen + 1;
    }
    QueueOfView(dev);
  }

  lemma ReceivedCounts(b: Books, alloc: bool)
    requires b.queue != []
    ensures |b.Received(alloc).queue| == |b.queue| - 1 && |b.Received(alloc).delivered| == |b.delivered| + if alloc then 1 else 0
  {
  }

  lemma QueueOfView(dev: Device)
    ensures dev.View().queue == [] <==> dev.rxQueue == []
  {
  }

  method Charge(dev: Device, owner: Device, n: nat)
    requires Link(owner, dev, true) && Link(dev, owner, true)
    modifies dev`quota
    ensures Link(owner, dev, true) && Link(dev, owner, true) && dev.quota == old(dev.quota) - n
  {
    dev.quota := dev.quota - n;
  }

  method BackToInterrupts(dev: Device, owner: Device)
    requires Link(owner, dev, true) && Link(dev, owner, true)
    modifies dev`polling, dev`rxIntEnabled
    ensures Link(owner, dev, true) && Link(dev, owner, true) && !dev.polling && dev.rxIntEnabled
  {
    dev.polling, dev.rxIntEnabled := false, true;
  }

  /** Between handlers, what one side sent is what the other received, dropped, or still has queued. */
  lemma SentIsAccountedFor(src: Device, dst: Device, napi: bool)
    requires Direction(src, dst, napi)
    ensures src.txPackets == dst.rxPackets + dst.rxDropped + |dst.rxQueue|
    ensures multiset(dst.arrived) == multiset(dst.delivered) + multiset(dst.dropped) + multiset(Frames(dst.rxQueue))
    ensures !napi ==> src.txPackets == dst.rxPackets + dst.rxDropped && !src.stopped
  {
    BalancedCounts(dst.Ledger());
    hide Frames, TotalLength;
  }

  method Setup(poolSize: nat, napi: bool) returns (d0: Device, d1: Device)
    requires 0 < poolSize
    ensures fresh(d0) && fresh(d1) && Direction(d0, d1, napi) && Direction(d1, d0, napi)
  {
    d0 := new Device(0, poolSize);
    d1 := new Device(1, poolSize);
  }

  /** The buffers and queues of both sides are tied to each other in both directions. */
  ghost predicate Connected(d0: Device, d1: Device, napi: bool)
    reads d0, d1
  {
    Direction(d0, d1, napi) && Direction(d1, d0, napi)
  }

  /** A transmission by the kernel, which leaves stopped queues alone. */
  method HandleTransmit(src: Device, dst: Device, frame: Frame, napi: bool, alloc: bool)
    requires Connected(src, dst, napi)
    modifies src, dst
    ensures Connected(src, dst, napi)
    ensures src.View() == old(src.View()) && dst.View() == old(dst.View()).Take(Padded(frame), src.poolSize, napi, alloc)
  {
    if src.stopped {
      FullQueue(src, dst, napi);
    } else {
      hide Link, Books.Balanced, SideOf, Padded;
      Tx(src, dst, frame, napi, alloc);
    }
  }

  lemma FullQueue(src: Device, dst: Device, napi: bool)
    requires Link(src, dst, napi) && src.stopped
    ensures src.poolSize <= |dst.View().queue|
  {
  }

  /** A poll by the kernel, which polls only devices that asked for it, and gives them a quota. */
  method HandlePoll(dev: Device, owner: Device, budget: int, quota: int, napi: bool, grants: nat -> bool)
    requires Connected(dev, owner, napi)
    modifies dev, owner
    ensures Connected(dev, owner, napi)
    ensures owner.View() == old(owner.View())
    ensures dev.View() == if napi && old(dev.View()).polling then old(dev.View()).Poll(Min(quota, budget), grants) else old(dev.View())
  {
    if napi && dev.polling {
      GiveQuota(dev, owner, quota);
      hide Link, Books.Balanced, Side.Poll;
      var _, _ := Poll(dev, owner, budget, grants);
    }
  }

  method GiveQuota(dev: Device, owner: Device, quota: int)
    requires Connected(dev, owner, true)
    modifies dev`quota
    ensures Connected(dev, owner, true) && dev.quota == quota
    ensures dev.View() == old(dev.View())
  {
    dev.quota := quota;
  }

  ghost function WorldOf(d0: Device, d1: Device): World
    reads d0, d1
  {
    World(d0.View(), d1.View())
  }

  /** One event does what the reference says. */
  method Handle(d0: Device, d1: Device, napi: bool, e: Event)
    requires Connected(d0, d1, napi)
    modifies d0, d1
    ensures Connected(d0, d1, napi) && WorldOf(d0, d1) == Serve(old(WorldOf(d0, d1)), e, d0.poolSize, d1.poolSize, napi)
    ensures if e.Transmit? == e.first then d0.View() == old(d0.View()) else d1.View() == old(d1.View())
  {
    hide Direction, SideOf, Side.Take, Side.Poll, Padded;
    match e {
      case Transmit(first, frame, alloc) =>
        if first {
          HandleTransmit(d0, d1, frame, napi, alloc);
        } else {
          HandleTransmit(d1, d0, frame, napi, alloc);
        }
      case PollDevice(first, budget, quota, grants) =>
        if first {
          HandlePoll(d0, d1, budget, quota, napi, grants);
        } else {
          HandlePoll(d1, d0, budget, quota, napi, grants);
        }
    }
  }

  /** Whatever is transmitted and polled, every frame goes where the reference says, and the books balance. */
  method Run(d0: Device, d1: Device, napi: bool, events: seq<Event>)
    requires Connected(d0, d1, napi)
    modifies d0, d1
    ensures Connected(d0, d1, napi)
    ensures WorldOf(d0, d1) == ServeAll(old(WorldOf(d0, d1)), events, d0.poolSize, d1.poolSize, napi)
  {
    hide Connected, WorldOf, Serve;
    for i := 0 to |events|
      invariant Connected(d0, d1, napi)
      invariant WorldOf(d0, d1) == ServeAll(old(WorldOf(d0, d1)), events[..i], d0.poolSize, d1.poolSize, napi)
    {
      Handle(d0, d1, napi, events[i]);
      assert events[..i + 1][..i] == events[..i];
    }
    assert events[..|events|] == events;
  }
}
