/**
 * The UDP traffic endpoints (src/clients.rs): the count-bounded `Sender` and
 * the echoing `Receiver` with its once-a-second byte counter.
 *
 * A socket is modelled by what it will deliver (`pending`, consumed one
 * `recv_from` at a time) and what was sent through it (`sent`). The clock is
 * an integer count of nanoseconds supplied by the caller.
 */
module Clients {
  import opened Wrappers

  type U8 = x: int | 0 <= x < 0x100
  type U16 = x: int | 0 <= x < 0x1_0000
  type U32 = x: int | 0 <= x < 0x1_0000_0000

  datatype SocketAddr = SocketAddr(host: string, port: U16)

  /** A datagram sent to `peer`. */
  datatype Datagram = Datagram(payload: seq<U8>, peer: SocketAddr)

  /** What the network has for the next `recv_from`: a datagram of `length` bytes from `src`, or nothing yet. */
  datatype Incoming = Arrives(length: nat, src: SocketAddr) | NoData

  /** The outcome of one `recv_from`: `size` bytes from `src`, or an error (nothing to read). */
  datatype Received = Received(size: nat, src: SocketAddr) | WouldBlock

  // ---------------------------------------------------------------------
  // Payload sizing

  /** The per-packet overhead subtracted from the packet size (`UDP_HEADER_SIZE`). */
  const UdpHeaderSize: nat := 42

  /** `recv_from` buffer of the sender (`BUF_SIZE`). */
  const SenderBufferSize: nat := 9000

  /** `recv_from` buffer of the receiver. */
  const ReceiverBufferSize: nat := 65536

  datatype PayloadError = HeaderUnderflow  // `packet_size - UDP_HEADER_SIZE` below zero on u16

  /** `payload_size`: the packet size less the header, or the u16 underflow below 42. */
  function PayloadSize(packetSize: U16): (r: Result<nat, PayloadError>)
    ensures r.Ok? <==> packetSize >= UdpHeaderSize
    ensures r.Ok? ==> r.value + UdpHeaderSize == packetSize
  {
    if packetSize < UdpHeaderSize then Err(HeaderUnderflow) else Ok(packetSize - UdpHeaderSize)
  }

  /** `vec![0; n]`. */
  function ZeroPayload(n: nat): (z: seq<U8>)
    ensures |z| == n
    ensures forall i :: 0 <= i < n ==> z[i] == 0
  {
    seq(n, _ => 0)
  }

  /** A packet of exactly the header size carries an empty payload; anything smaller is refused. */
  lemma PayloadBoundary(packetSize: U16)
    ensures packetSize == UdpHeaderSize ==> PayloadSize(packetSize) == Ok(0) && ZeroPayload(0) == []
    ensures packetSize < UdpHeaderSize ==> PayloadSize(packetSize) == Err(HeaderUnderflow)
  {}

  // ---------------------------------------------------------------------
  // The socket

  /** `recv_from` into a buffer of `bufferSize` bytes: a longer datagram is cut to the buffer. */
  function Deliver(event: Incoming, bufferSize: nat): (r: Received)
    ensures r.Received? <==> event.Arrives?
    ensures r.Received? ==> r.src == event.src && r.size <= bufferSize && r.size <= event.length
    ensures r.Received? && event.length <= bufferSize ==> r.size == event.length
  {
    match event
    case Arrives(length, src) => Received(if length <= bufferSize then length else bufferSize, src)
    case NoData => WouldBlock
  }

  /** One non-blocking `recv_from`: the next pending event, or nothing when none is left. */
  function Receive(pending: seq<Incoming>, bufferSize: nat): (r: (Received, seq<Incoming>))
    ensures pending == [] ==> r == (WouldBlock, [])
    ensures pending != [] ==> r == (Deliver(pending[0], bufferSize), pending[1..])
  {
    if pending == [] then (WouldBlock, []) else (Deliver(pending[0], bufferSize), pending[1..])
  }

  class UdpSocket {
    /** What successive `recv_from` calls will find. */
    var pending: seq<Incoming>
    /** Every datagram sent so far, in order. */
    var sent: seq<Datagram>

    constructor(incoming: seq<Incoming>)
      ensures pending == incoming && sent == []
    {
      pending := incoming;
      sent := [];
    }

    method SendTo(payload: seq<U8>, dest: SocketAddr)
      modifies this
      ensures sent == old(sent) + [Datagram(payload, dest)]
      ensures pending == old(pending)
    {
      sent := sent + [Datagram(payload, dest)];
    }

    method RecvFrom(bufferSize: nat) returns (r: Received)
      modifies this
      ensures (r, pending) == Receive(old(pending), bufferSize)
      ensures sent == old(sent)
    {
      var next := Receive(pending, bufferSize);
      r, pending := next.0, next.1;
    }
  }

  // ---------------------------------------------------------------------
  // Sender

  /** `n` copies of the datagram `d`. */
  function Burst(d: Datagram, n: nat): (b: seq<Datagram>)
    ensures |b| == n
    ensures forall i :: 0 <= i < n ==> b[i] == d
  {
    seq(n, _ => d)
  }

  class Sender {
    const socket: UdpSocket
    const targetAddress: SocketAddr

    constructor(socket: UdpSocket, targetAddress: SocketAddr)
      ensures this.socket == socket && this.targetAddress == targetAddress
    {
      this.socket := socket;
      this.targetAddress := targetAddress;
    }

    /**
     * `Sender::run`: `pktCount` zero-filled datagrams of `packetSize - 42`
     * bytes to the target, then one receive attempt, whose outcome is
     * returned. Below 42 bytes the size computation fails before anything is sent.
     */
    method Run(pktCount: U32, packetSize: U16) returns (r: Result<Received, PayloadError>)
      modifies socket
      ensures PayloadSize(packetSize).Err? ==>
                r == Err(HeaderUnderflow) && socket.sent == old(socket.sent) && socket.pending == old(socket.pending)
      ensures PayloadSize(packetSize).Ok? ==>
                && var payload := ZeroPayload(PayloadSize(packetSize).value);
                && socket.sent == old(socket.sent) + Burst(Datagram(payload, targetAddress), pktCount)
                && r.Ok? && (r.value, socket.pending) == Receive(old(socket.pending), SenderBufferSize)
    {
      var size := PayloadSize(packetSize);
      if size.Err? {
        return Err(size.error);
      }
      var payload := ZeroPayload(size.value);
      for i := 0 to pktCount
        invariant socket.sent == old(socket.sent) + Burst(Datagram(payload, targetAddress), i)
        invariant socket.pending == old(socket.pending)
      {
        socket.SendTo(payload, targetAddress);
      }
      var got := socket.RecvFrom(SenderBufferSize);
      r := Ok(got);
    }
  }

  // ---------------------------------------------------------------------
  // Receiver: the loop as a function of the clock readings

  /** The window length: the counter is closed once more than one second has passed. */
  const WindowNanos: nat := 1_000_000_000

  /** `Instant::elapsed`: time since `start`, never negative. */
  function Elapsed(start: int, now: int): (e: nat)
    ensures now >= start ==> e == now - start
    ensures now < start ==> e == 0
  {
    if now > start then now - start else 0
  }

  /** A rate line: the window's byte count and its length, from which the Mbps figure is computed. */
  datatype Report = Report(bytes: nat, elapsed: nat)

  /** The receiver's loop state: its socket's two sides, `bytes_received`, `start_time` and the rate lines so far. */
  datatype RxState = RxState(pending: seq<Incoming>, sent: seq<Datagram>, bytes: nat, start: int, reports: seq<Report>)

  /** Receiving: the echo is sent and the bytes counted; a failed receive changes nothing. */
  function Absorb(s: RxState, got: Received, rest: seq<Incoming>): (r: RxState)
    ensures r.pending == rest && r.start == s.start && r.reports == s.reports
    ensures got.WouldBlock? ==> r.sent == s.sent && r.bytes == s.bytes
    ensures got.Received? ==> |r.sent| == |s.sent| + 1 && r.sent[..|s.sent|] == s.sent
    ensures got.Received? ==>
              r.sent[|s.sent|].peer == got.src && r.bytes == s.bytes + |r.sent[|s.sent|].payload|
    ensures got.Received? ==>
              r.sent[|s.sent|] == Datagram(ZeroPayload(got.size), got.src) && r.bytes == s.bytes + got.size
  {
    match got
    case Received(size, src) =>
      s.(pending := rest, sent := s.sent + [Datagram(ZeroPayload(size), src)], bytes := s.bytes + size)
    case WouldBlock => s.(pending := rest)
  }

  /** Closing the window, if more than a second has passed: report if anything arrived, then reset. */
  function CloseWindow(s: RxState, now: int): (r: RxState)
    ensures r.pending == s.pending && r.sent == s.sent
    ensures r == s <==> Elapsed(s.start, now) <= WindowNanos
    ensures r != s ==> r.bytes == 0 && r.start == now && ReportedBytes(r.reports) == ReportedBytes(s.reports) + s.bytes
  {
    var elapsed := Elapsed(s.start, now);
    if elapsed > WindowNanos then
      ReportedBytesAppend(s.reports, if s.bytes > 0 then [Report(s.bytes, elapsed)] else []);
      s.(reports := s.reports + (if s.bytes > 0 then [Report(s.bytes, elapsed)] else []), bytes := 0, start := now)
    else s
  }

  /** One iteration of the receiver's loop, the clock reading `now`. */
  function RxStep(s: RxState, now: int): (r: RxState)
    ensures r.start == s.start || r.start == now
    ensures |s.reports| <= |r.reports| <= |s.reports| + 1 && r.reports[..|s.reports|] == s.reports
  {
    var next := Receive(s.pending, ReceiverBufferSize);
    CloseWindow(Absorb(s, next.0, next.1), now)
  }

  /** The receiver's loop over the clock readings `ticks`, one per iteration. */
  function RxRun(s: RxState, ticks: seq<int>): (r: RxState)
    ensures r.start == s.start || exists i :: 0 <= i < |ticks| && r.start == ticks[i]
  {
    if |ticks| == 0 then s
    else
      assert forall i :: 0 <= i < |ticks| - 1 ==> ticks[..|ticks| - 1][i] == ticks[i];
      RxStep(RxRun(s, ticks[..|ticks| - 1]), ticks[|ticks| - 1])
  }

  class Receiver {
    const socket: UdpSocket

    /** `Receiver::new`: the bound, non-blocking socket. */
    constructor(socket: UdpSocket)
      ensures this.socket == socket
    {
      this.socket := socket;
    }

    /**
     * `Receiver::run`, started at clock reading `start`, for one loop
     * iteration per reading in `ticks`. Returns the rate lines it reported
     * and the final `bytes_received` and `start_time`.
     */
    method Run(start: int, ticks: seq<int>) returns (reports: seq<Report>, bytesReceived: nat, startTime: int)
      modifies socket
      ensures RxRun(RxState(old(socket.pending), old(socket.sent), 0, start, []), ticks)
              == RxState(socket.pending, socket.sent, bytesReceived, startTime, reports)
    {
      ghost var s0 := RxState(socket.pending, socket.sent, 0, start, []);
      bytesReceived, startTime, reports := 0, start, [];
      for i := 0 to |ticks|
        invariant RxRun(s0, ticks[..i]) == RxState(socket.pending, socket.sent, bytesReceived, startTime, reports)
      {
        assert ticks[..i + 1][..i] == ticks[..i];
        ghost var prev := RxState(socket.pending, socket.sent, bytesReceived, startTime, reports);
        assert RxRun(s0, ticks[..i + 1]) == RxStep(prev, ticks[i]);
        var got := socket.RecvFrom(ReceiverBufferSize);
        match got {
          case Received(size, src) =>
            socket.SendTo(ZeroPayload(size), src);
            bytesReceived := bytesReceived + size;
          case WouldBlock =>
        }
        ghost var mid := RxState(socket.pending, socket.sent, bytesReceived, startTime, reports);
        assert Absorb(prev, got, socket.pending) == mid;
        assert RxStep(prev, ticks[i]) == CloseWindow(mid, ticks[i]);
        var elapsed := Elapsed(startTime, ticks[i]);
        if elapsed > WindowNanos {
          if bytesReceived > 0 {
            reports := reports + [Report(bytesReceived, elapsed)];
          }
          bytesReceived := 0;
          startTime := ticks[i];
        }
      }
      assert ticks[..|ticks|] == ticks;
    }
  }

  // ---------------------------------------------------------------------
  // Properties of the receiver's loop

  /** The echo of one pending event: a zero buffer as long as what was received, back to its sender. */
  function EchoOf(event: Incoming): seq<Datagram> {
    match Deliver(event, ReceiverBufferSize)
    case Received(size, src) => [Datagram(ZeroPayload(size), src)]
    case WouldBlock => []
  }

  /** The bytes one pending event delivers to the receiver. */
  function DeliveredBy(event: Incoming): nat {
    match Deliver(event, ReceiverBufferSize)
    case Received(size, _) => size
    case WouldBlock => 0
  }

  /** The echoes of a run of events, in order. */
  function Echoes(events: seq<Incoming>): seq<Datagram> {
    if |events| == 0 then [] else Echoes(events[..|events| - 1]) + EchoOf(events[|events| - 1])
  }

  /** The bytes a run of events delivers to the receiver. */
  function DeliveredBytes(events: seq<Incoming>): nat {
    if |events| == 0 then 0 else DeliveredBytes(events[..|events| - 1]) + DeliveredBy(events[|events| - 1])
  }

  function ReportedBytes(reports: seq<Report>): nat {
    if |reports| == 0 then 0 else ReportedBytes(reports[..|reports| - 1]) + reports[|reports| - 1].bytes
  }

  function Min(a: nat, b: nat): nat {
    if a <= b then a else b
  }

  lemma ReportedBytesAppend(a: seq<Report>, b: seq<Report>)
    requires |b| <= 1
    ensures ReportedBytes(a + b) == ReportedBytes(a) + (if |b| == 1 then b[0].bytes else 0)
  {
    if |b| == 1 {
      assert (a + b)[..|a + b| - 1] == a;
    } else {
      assert a + b == a;
    }
  }

  /** One iteration consumes at most one pending event, echoes it, and moves its bytes into the counter or a rate line. */
  lemma RxStepAccounts(s: RxState, now: int)
    ensures s.pending == [] ==> RxStep(s, now).pending == [] && RxStep(s, now).sent == s.sent
    ensures s.pending != [] ==>
              RxStep(s, now).pending == s.pending[1..] && RxStep(s, now).sent == s.sent + EchoOf(s.pending[0])
    ensures ReportedBytes(RxStep(s, now).reports) + RxStep(s, now).bytes
              == ReportedBytes(s.reports) + s.bytes + (if s.pending == [] then 0 else DeliveredBy(s.pending[0]))
  {
    var next := Receive(s.pending, ReceiverBufferSize);
    var mid := Absorb(s, next.0, next.1);
    ReportedBytesAppend(mid.reports, if mid.bytes > 0 then [Report(mid.bytes, Elapsed(mid.start, now))] else []);
  }

  /**
   * Closing the window in one iteration: once more than a second has passed
   * since `start`, the count so far (including this iteration's datagram)
   * becomes a rate line if it is non-zero, and the counter and the clock are
   * reset; otherwise both carry on.
   */
  lemma RxStepClosesWindow(s: RxState, now: int)
    ensures var counted := s.bytes + (if s.pending == [] then 0 else DeliveredBy(s.pending[0]));
      var e := Elapsed(s.start, now);
      var r := RxStep(s, now);
      && (e > WindowNanos ==>
            r.bytes == 0 && r.start == now &&
            r.reports == s.reports + (if counted > 0 then [Report(counted, e)] else []))
      && (e <= WindowNanos ==> r.bytes == counted && r.start == s.start && r.reports == s.reports)
  {}

  /** `n` iterations consume the first `n` pending events, or all of them if there are fewer. */
  lemma {:induction false} RxRunConsumes(s: RxState, ticks: seq<int>)
    ensures RxRun(s, ticks).pending == s.pending[Min(|ticks|, |s.pending|)..]
    decreases |ticks|
  {
    if |ticks| > 0 {
      var init := ticks[..|ticks| - 1];
      var prev := RxRun(s, init);
      assert RxRun(s, ticks) == RxStep(prev, ticks[|ticks| - 1]);
      RxRunConsumes(s, init);
      RxStepAccounts(prev, ticks[|ticks| - 1]);
      var k := Min(|init|, |s.pending|);
      if k < |s.pending| {
        assert s.pending[k..][1..] == s.pending[k + 1..];
      }
    }
  }

  /** What the loop sends is exactly the echoes of the events it consumed, in order, and nothing else. */
  lemma {:induction false} RxRunEchoes(s: RxState, ticks: seq<int>)
    ensures RxRun(s, ticks).sent == s.sent + Echoes(s.pending[..Min(|ticks|, |s.pending|)])
    decreases |ticks|
  {
    if |ticks| > 0 {
      var init := ticks[..|ticks| - 1];
      var prev := RxRun(s, init);
      assert RxRun(s, ticks) == RxStep(prev, ticks[|ticks| - 1]);
      RxRunEchoes(s, init);
      RxRunConsumes(s, init);
      RxStepAccounts(prev, ticks[|ticks| - 1]);
      var k := Min(|init|, |s.pending|);
      if k < |s.pending| {
        var done := s.pending[..k + 1];
        assert done[..k] == s.pending[..k];
        assert Echoes(done) == Echoes(s.pending[..k]) + EchoOf(s.pending[k]);
        assert RxRun(s, ticks).sent == s.sent + Echoes(s.pending[..k]) + EchoOf(s.pending[k]);
      } else {
        assert RxRun(s, ticks).sent == prev.sent;
      }
    }
  }

  /**
   * Every byte the consumed events deliver ends up either in a rate line or
   * still in the counter: none is lost at a window reset, none counted twice.
   */
  lemma {:induction false} RxRunConservesBytes(s: RxState, ticks: seq<int>)
    ensures var k := Min(|ticks|, |s.pending|);
      ReportedBytes(RxRun(s, ticks).reports) + RxRun(s, ticks).bytes
        == ReportedBytes(s.reports) + s.bytes + DeliveredBytes(s.pending[..k])
    decreases |ticks|
  {
    if |ticks| > 0 {
      var init := ticks[..|ticks| - 1];
      var prev := RxRun(s, init);
      assert RxRun(s, ticks) == RxStep(prev, ticks[|ticks| - 1]);
      RxRunConservesBytes(s, init);
      RxRunConsumes(s, init);
      var k := Min(|init|, |s.pending|);
      RxStepAccounts(prev, ticks[|ticks| - 1]);
      if k < |s.pending| {
        var done := s.pending[..k + 1];
        assert done[..k] == s.pending[..k];
        assert DeliveredBytes(done) == DeliveredBytes(s.pending[..k]) + DeliveredBy(s.pending[k]);
      }
    }
  }

  /** Every rate line reports a window of more than one second in which at least one byte arrived. */
  lemma {:induction false} RxRunReportsOnlyBusyWindows(s: RxState, ticks: seq<int>)
    ensures var r := RxRun(s, ticks);
      && |s.reports| <= |r.reports| && r.reports[..|s.reports|] == s.reports
      && forall i :: |s.reports| <= i < |r.reports| ==> r.reports[i].bytes > 0 && r.reports[i].elapsed > WindowNanos
    decreases |ticks|
  {
    if |ticks| > 0 {
      RxRunReportsOnlyBusyWindows(s, ticks[..|ticks| - 1]);
    }
  }

  /** Every echo is all zeros and no longer than the receive buffer. */
  lemma {:induction false} EchoesAreZeroBuffers(events: seq<Incoming>)
    ensures forall i :: 0 <= i < |Echoes(events)| ==>
      |Echoes(events)[i].payload| <= ReceiverBufferSize &&
      forall j :: 0 <= j < |Echoes(events)[i].payload| ==> Echoes(events)[i].payload[j] == 0
  {
    if |events| > 0 {
      EchoesAreZeroBuffers(events[..|events| - 1]);
    }
  }

  /** A datagram that fits the buffer is echoed at its exact length, to its sender. */
  lemma EchoMatchesDatagram(length: nat, src: SocketAddr)
    requires length <= ReceiverBufferSize
    ensures EchoOf(Arrives(length, src)) == [Datagram(ZeroPayload(length), src)]
  {}
}
