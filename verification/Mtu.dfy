/**
  Checked V2 sending: the path MTU state, the admission gate in front of a
  transport, the packet-id sequencer, and the preview/commit pipeline that joins
  them. The envelope builder and the transport are arbitrary.
*/
module Mtu {
  import opened Prelude
  import opened Codec

  const MAX_DATAGRAM_MTU: nat := 65_535

  /** A whole-datagram limit that at least holds the fixed header. */
  type DatagramMtu = n: nat | FIXED_HEADER_LEN <= n <= MAX_DATAGRAM_MTU witness FIXED_HEADER_LEN

  datatype DatagramMtuError = BelowMinimum(value: nat, minimum: nat) | AboveMaximum(value: nat, maximum: nat)

  function NewDatagramMtu(value: nat): Result<DatagramMtu, DatagramMtuError> {
    if value < FIXED_HEADER_LEN then Err(BelowMinimum(value, FIXED_HEADER_LEN))
    else if value > MAX_DATAGRAM_MTU then Err(AboveMaximum(value, MAX_DATAGRAM_MTU))
    else Ok(value)
  }

  function EffectivePayload(mtu: DatagramMtu): nat {
    mtu - FIXED_HEADER_LEN
  }

  // ---------------------------------------------------------------------
  // Path MTU state
  // ---------------------------------------------------------------------

  datatype PathMtuState =
    | Unknown
    | Available(datagramMtu: DatagramMtu, effective: nat)
    | Reduced(datagramMtu: DatagramMtu, effective: nat, previous: DatagramMtu)
    | BlackHole
  {
    predicate SendDenied() {
      Unknown? || BlackHole?
    }
  }

  datatype MtuEvent =
    | MtuDiscovered(datagramMtu: nat)
    | MtuReduced(previous: nat, current: nat)
    | ReduceIgnored(requested: nat, current: nat)
    | MtuBlackHole
    | NoOp

  function Discover(s: PathMtuState, mtu: DatagramMtu): (PathMtuState, MtuEvent) {
    (Available(mtu, EffectivePayload(mtu)), MtuDiscovered(mtu))
  }

  function Reduce(s: PathMtuState, mtu: DatagramMtu): (PathMtuState, MtuEvent) {
    if s.SendDenied() then (s, NoOp)
    else if mtu >= s.datagramMtu then (s, ReduceIgnored(mtu, s.datagramMtu))
    else (Reduced(mtu, EffectivePayload(mtu), s.datagramMtu), MtuReduced(s.datagramMtu, mtu))
  }

  function Blackhole(s: PathMtuState): (PathMtuState, MtuEvent) {
    if s.SendDenied() then (s, NoOp) else (BlackHole, MtuBlackHole)
  }

  function Recover(s: PathMtuState, mtu: DatagramMtu): (PathMtuState, MtuEvent) {
    if s.BlackHole? then Discover(s, mtu) else (s, NoOp)
  }

  /** What a send does with the limit the transport advertises at that moment. */
  function Sync(s: PathMtuState, mtu: DatagramMtu): (PathMtuState, MtuEvent) {
    match s
    case Unknown => Discover(s, mtu)
    case BlackHole => (s, NoOp)
    case _ => if mtu < s.datagramMtu then Reduce(s, mtu) else (s, NoOp)
  }

  datatype MtuReject =
    | EmptyPayload
    | PayloadExceedsMtu(payloadLen: nat, effectiveMtu: nat)
    | DatagramExceedsMtu(datagramLen: nat, datagramMtu: nat)
    | DatagramBelowHeader(datagramLen: nat, minimum: nat)
    | PathMtuUnknown
    | PathMtuBlackHole

  function CheckPayload(len: nat, s: PathMtuState): Result<nat, MtuReject> {
    if len == 0 then Err(MtuReject.EmptyPayload)
    else match s
         case Unknown => Err(PathMtuUnknown)
         case BlackHole => Err(PathMtuBlackHole)
         case _ => if len > s.effective then Err(PayloadExceedsMtu(len, s.effective)) else Ok(s.effective)
  }

  function CheckDatagram(len: nat, s: PathMtuState): Result<DatagramMtu, MtuReject> {
    if len < FIXED_HEADER_LEN then Err(DatagramBelowHeader(len, FIXED_HEADER_LEN))
    else match s
         case Unknown => Err(PathMtuUnknown)
         case BlackHole => Err(PathMtuBlackHole)
         case _ => if len > s.datagramMtu then Err(DatagramExceedsMtu(len, s.datagramMtu)) else Ok(s.datagramMtu)
  }

  /** The stored payload limit is the one the datagram limit leaves, and a reduction went down. */
  predicate Coherent(s: PathMtuState) {
    match s
    case Available(mtu, effective) => effective == EffectivePayload(mtu)
    case Reduced(mtu, effective, previous) => effective == EffectivePayload(mtu) && mtu < previous
    case _ => true
  }

  /** Checking the payload and checking the whole datagram come to the same verdict and limit. */
  lemma ChecksAgree(len: nat, s: PathMtuState)
    requires Coherent(s) && len > 0
    ensures CheckPayload(len, s).Ok? <==> CheckDatagram(FIXED_HEADER_LEN + len, s).Ok?
    ensures CheckPayload(len, s).Ok? ==>
              CheckPayload(len, s).value == EffectivePayload(CheckDatagram(FIXED_HEADER_LEN + len, s).value)
  {
    match s
    case Unknown =>
    case BlackHole =>
    case Available(mtu, effective) =>
    case Reduced(mtu, effective, previous) =>
  }

  // ---------------------------------------------------------------------
  // Admission gate
  // ---------------------------------------------------------------------

  datatype Metrics = Metrics(admitted: u64, enqueued: u64, rejected: u64, encodeFailures: u64,
                             transportFailures: u64, reductions: u64, blackholes: u64)

  const NO_METRICS: Metrics := Metrics(0, 0, 0, 0, 0, 0, 0)

  function RecordEvent(m: Metrics, e: MtuEvent): Metrics {
    match e
    case MtuReduced(_, _) => m.(reductions := Saturate(m.reductions + 1))
    case MtuBlackHole => m.(blackholes := Saturate(m.blackholes + 1))
    case _ => m
  }

  datatype Gate = Gate(state: PathMtuState, metrics: Metrics)

  function Moved(g: Gate, to: (PathMtuState, MtuEvent)): Gate {
    Gate(to.0, RecordEvent(g.metrics, to.1))
  }

  function CountAdmitted(g: Gate): Gate {
    g.(metrics := g.metrics.(admitted := Saturate(g.metrics.admitted + 1)))
  }

  function CountRejected(g: Gate): Gate {
    g.(metrics := g.metrics.(rejected := Saturate(g.metrics.rejected + 1)))
  }

  function CountEnqueued(g: Gate): Gate {
    g.(metrics := g.metrics.(enqueued := Saturate(g.metrics.enqueued + 1)))
  }

  function CountEncodeFailure(g: Gate): Gate {
    g.(metrics := g.metrics.(encodeFailures := Saturate(g.metrics.encodeFailures + 1)))
  }

  function CountTransportFailure(g: Gate): Gate {
    g.(metrics := g.metrics.(transportFailures := Saturate(g.metrics.transportFailures + 1)))
  }

  function AdmitPayload(g: Gate, len: nat): (Gate, Result<nat, MtuReject>) {
    var r := CheckPayload(len, g.state);
    (if r.Ok? then CountAdmitted(g) else CountRejected(g), r)
  }

  function AdmitDatagram(g: Gate, len: nat): (Gate, Result<DatagramMtu, MtuReject>) {
    var r := CheckDatagram(len, g.state);
    (if r.Ok? then CountAdmitted(g) else CountRejected(g), r)
  }

  function AdmitEnvelope(g: Gate, payloadLen: nat, datagramLen: nat): (Gate, Result<nat, MtuReject>) {
    if payloadLen == 0 then (CountRejected(g), Err(MtuReject.EmptyPayload))
    else
      var (h, r) := AdmitDatagram(g, datagramLen);
      (h, match r case Ok(mtu) => Ok(EffectivePayload(mtu)) case Err(reason) => Err(reason))
  }

  class MtuAdmission {
    var state: PathMtuState
    var metrics: Metrics
    const tunPayloadMtu: nat

    ghost function View(): Gate
      reads this
    {
      Gate(state, metrics)
    }

    constructor WithTunPayloadMtu(tunPayloadMtu: nat)
      requires tunPayloadMtu + FIXED_HEADER_LEN <= MAX_DATAGRAM_MTU
      ensures View() == Gate(Unknown, NO_METRICS) && this.tunPayloadMtu == tunPayloadMtu
    {
      state := Unknown;
      metrics := NO_METRICS;
      this.tunPayloadMtu := tunPayloadMtu;
    }

    /** Refuses a TUN payload size whose datagram would be out of range, with the error of that datagram size. */
    static method Create(tunPayloadMtu: nat) returns (r: Result<MtuAdmission, DatagramMtuError>)
      ensures r.Ok? <==> tunPayloadMtu + FIXED_HEADER_LEN <= MAX_DATAGRAM_MTU
      ensures r.Err? ==> r.error == AboveMaximum(tunPayloadMtu + FIXED_HEADER_LEN, MAX_DATAGRAM_MTU)
      ensures r.Ok? ==> fresh(r.value) && r.value.View() == Gate(Unknown, NO_METRICS)
      ensures r.Ok? ==> r.value.tunPayloadMtu == tunPayloadMtu
    {
      var checked := NewDatagramMtu(tunPayloadMtu + FIXED_HEADER_LEN);
      if checked.Err? {
        return Err(checked.error);
      }
      var gate := new MtuAdmission.WithTunPayloadMtu(tunPayloadMtu);
      r := Ok(gate);
    }

    method Record(to: (PathMtuState, MtuEvent)) returns (event: MtuEvent)
      modifies this
      ensures View() == Moved(old(View()), to) && event == to.1
    {
      event := to.1;
      state := to.0;
      match event {
        case MtuReduced(_, _) => metrics := metrics.(reductions := Saturate(metrics.reductions + 1));
        case MtuBlackHole => metrics := metrics.(blackholes := Saturate(metrics.blackholes + 1));
        case _ =>
      }
    }

    method SyncFromTransport(mtu: DatagramMtu) returns (event: MtuEvent)
      modifies this
      ensures View() == Moved(old(View()), Sync(old(state), mtu))
      ensures event == Sync(old(state), mtu).1
    {
      match state {
        case Unknown => event := Record(Discover(state, mtu));
        case BlackHole => event := NoOp;
        case Available(current, _) =>
          if mtu < current {
            event := Record(Reduce(state, mtu));
          } else {
            event := NoOp;
          }
        case Reduced(current, _, _) =>
          if mtu < current {
            event := Record(Reduce(state, mtu));
          } else {
            event := NoOp;
          }
      }
    }

    method ReportDiscovery(mtu: DatagramMtu) returns (event: MtuEvent)
      modifies this
      ensures View() == Moved(old(View()), Discover(old(state), mtu)) && event == Discover(old(state), mtu).1
    {
      event := Record(Discover(state, mtu));
    }

    method ReportReduction(mtu: DatagramMtu) returns (event: MtuEvent)
      modifies this
      ensures View() == Moved(old(View()), Reduce(old(state), mtu)) && event == Reduce(old(state), mtu).1
    {
      event := Record(Reduce(state, mtu));
    }

    method ReportBlackhole() returns (event: MtuEvent)
      modifies this
      ensures View() == Moved(old(View()), Blackhole(old(state))) && event == Blackhole(old(state)).1
    {
      event := Record(Blackhole(state));
    }

    method ReportRecovery(mtu: DatagramMtu) returns (event: MtuEvent)
      modifies this
      ensures View() == Moved(old(View()), Recover(old(state), mtu)) && event == Recover(old(state), mtu).1
    {
      event := Record(Recover(state, mtu));
    }

    method RejectAbsentLimit() returns (reason: MtuReject)
      modifies `metrics
      ensures View() == CountRejected(old(View())) && reason == PathMtuUnknown
    {
      metrics := metrics.(rejected := Saturate(metrics.rejected + 1));
      reason := PathMtuUnknown;
    }

    method Admit(payloadLen: nat, datagramLen: nat) returns (r: Result<nat, MtuReject>)
      modifies `metrics
      ensures (View(), r) == AdmitEnvelope(old(View()), payloadLen, datagramLen)
    {
      if payloadLen == 0 {
        metrics := metrics.(rejected := Saturate(metrics.rejected + 1));
        return Err(MtuReject.EmptyPayload);
      }
      var checked := CheckDatagram(datagramLen, state);
      match checked {
        case Ok(mtu) =>
          metrics := metrics.(admitted := Saturate(metrics.admitted + 1));
          r := Ok(EffectivePayload(mtu));
        case Err(reason) =>
          metrics := metrics.(rejected := Saturate(metrics.rejected + 1));
          r := Err(reason);
      }
    }
  }

  // ---------------------------------------------------------------------
  // Packet identifiers
  // ---------------------------------------------------------------------

  datatype Counter = Counter(next: u64, exhausted: bool)

  /** Commits `id`: the head advances, or the counter ends for good after the last identifier. */
  function Commit(c: Counter, id: u64): Counter {
    if c.exhausted || id != c.next then c
    else if c.next == U64_MAX then c.(exhausted := true)
    else c.(next := c.next + 1)
  }

  class PacketIdSequencer {
    var next: u64
    var exhausted: bool

    ghost function View(): Counter
      reads this
    {
      Counter(next, exhausted)
    }

    constructor (start: u64)
      ensures View() == Counter(start, false)
    {
      next := start;
      exhausted := false;
    }

    /** A pure peek at the head. */
    method Preview() returns (r: Option<u64>)
      ensures r == if exhausted then None else Some(next)
    {
      r := if exhausted then None else Some(next);
    }

    method CommitId(id: u64)
      modifies this
      ensures View() == Commit(old(View()), id)
    {
      if exhausted || id != next {
        return;
      }
      if next == U64_MAX {
        exhausted := true;
      } else {
        next := next + 1;
      }
    }
  }

  // ---------------------------------------------------------------------
  // The send pipeline
  // ---------------------------------------------------------------------

  datatype TransportError = NoDatagramLimit | TooLarge(datagramLen: nat, limit: nat) | Refused(why: string)

  datatype SendError =
    | PacketIdExhausted
    | Rejected(reason: MtuReject)
    | BuildMismatch(expected: u64, found: u64)
    | EncodeFailed(error: EnvelopeError)
    | Transport(refusal: TransportError)

  /** One call: the caller's length, the transport's advertised limit, the builder and the transport's answers. */
  datatype Call = Call(payloadLen: u64, limit: Option<DatagramMtu>,
                       build: u64 -> Envelope, transmit: Bytes -> Option<TransportError>)

  datatype Pipe = Pipe(gate: Gate, counter: Counter)

  /** The state after a send, its answer, and the datagram handed to the transport, if any. */
  datatype Sent = Sent(pipe: Pipe, answer: Result<u64, SendError>, handed: Option<Bytes>)

  function Send(p: Pipe, c: Call): Sent {
    if p.counter.exhausted then Sent(p, Err(PacketIdExhausted), None)
    else if c.limit.None? then Sent(p.(gate := CountRejected(p.gate)), Err(Rejected(PathMtuUnknown)), None)
    else
      var synced := Moved(p.gate, Sync(p.gate.state, c.limit.value));
      var (gate, admission) := AdmitEnvelope(synced, c.payloadLen, Saturate(FIXED_HEADER_LEN + c.payloadLen));
      if admission.Err? then Sent(p.(gate := gate), Err(Rejected(admission.error)), None)
      else
        var id := p.counter.next;
        var e := c.build(id);
        if e.header.packetId != id then
          Sent(p.(gate := CountEncodeFailure(gate)), Err(BuildMismatch(id, e.header.packetId)), None)
        else
          match Encode(e, admission.value)
          case Err(error) => Sent(p.(gate := CountEncodeFailure(gate)), Err(EncodeFailed(error)), None)
          case Ok(d) =>
            match c.transmit(d)
            case Some(error) => Sent(p.(gate := CountTransportFailure(gate)), Err(Transport(error)), Some(d))
            case None => Sent(Pipe(CountEnqueued(gate), Commit(p.counter, id)), Ok(id), Some(d))
  }

  class CheckedDatagramSender {
    const admission: MtuAdmission

    constructor (admission: MtuAdmission)
      ensures this.admission == admission
    {
      this.admission := admission;
    }

    method SendChecked(payloadLen: u64, sequencer: PacketIdSequencer, limit: Option<DatagramMtu>,
                       build: u64 -> Envelope, transmit: Bytes -> Option<TransportError>)
      returns (answer: Result<u64, SendError>, handed: Option<Bytes>)
      modifies admission, sequencer
      ensures var before := Pipe(old(admission.View()), old(sequencer.View()));
              var sent := Send(before, Call(payloadLen, limit, build, transmit));
              sent == Sent(Pipe(admission.View(), sequencer.View()), answer, handed)
    {
      handed := None;
      if sequencer.exhausted {
        answer := Err(PacketIdExhausted);
        return;
      }
      if limit.None? {
        var reason := admission.RejectAbsentLimit();
        answer := Err(Rejected(reason));
        return;
      }
      var event := admission.SyncFromTransport(limit.value);
      var admitted := admission.Admit(payloadLen, Saturate(FIXED_HEADER_LEN + payloadLen));
      if admitted.Err? {
        answer := Err(Rejected(admitted.error));
        return;
      }
      var reservation := sequencer.Preview();
      var id := reservation.value;
      var envelope := build(id);
      if envelope.header.packetId != id {
        admission.metrics := admission.metrics.(encodeFailures := Saturate(admission.metrics.encodeFailures + 1));
        answer := Err(BuildMismatch(id, envelope.header.packetId));
        return;
      }
      var encoded := Encode(envelope, admitted.value);
      if encoded.Err? {
        admission.metrics := admission.metrics.(encodeFailures := Saturate(admission.metrics.encodeFailures + 1));
        answer := Err(EncodeFailed(encoded.error));
        return;
      }
      handed := Some(encoded.value);
      var refusal := transmit(encoded.value);
      if refusal.Some? {
        admission.metrics := admission.metrics.(transportFailures := Saturate(admission.metrics.transportFailures + 1));
        answer := Err(Transport(refusal.value));
        return;
      }
      admission.metrics := admission.metrics.(enqueued := Saturate(admission.metrics.enqueued + 1));
      sequencer.CommitId(id);
      answer := Ok(id);
    }
  }

  // ---------------------------------------------------------------------
  // One send
  // ---------------------------------------------------------------------

  /** After a sync the gate never allows more than the transport advertises. */
  lemma SyncNeverExceedsTransport(s: PathMtuState, mtu: DatagramMtu)
    ensures var t := Sync(s, mtu).0;
            || t.BlackHole?
            || (!t.SendDenied() && t.datagramMtu <= mtu && (s.SendDenied() || t.datagramMtu <= s.datagramMtu))
  {
    match s
    case Unknown =>
    case BlackHole =>
    case Available(_, _) =>
    case Reduced(_, _, _) =>
  }

  /** The limit a send is held to: the lesser of the advertised one and the known one, if any. */
  function HeldTo(s: PathMtuState, advertised: DatagramMtu): DatagramMtu {
    if s.SendDenied() || advertised < s.datagramMtu then advertised else s.datagramMtu
  }

  /** The counter has an id left, the path is open, and header and payload are within the limit. */
  predicate Fits(p: Pipe, c: Call) {
    && !p.counter.exhausted
    && c.limit.Some?
    && c.payloadLen > 0
    && !p.gate.state.BlackHole?
    && 52 + c.payloadLen <= HeldTo(p.gate.state, c.limit.value)
  }

  /** A send is turned away exactly when it does not fit, and then for the first reason that applies. */
  lemma TurnsAwayExactly(p: Pipe, c: Call)
    ensures var a := Send(p, c).answer;
            var open := !p.counter.exhausted && c.limit.Some?;
            var sighted := open && c.payloadLen > 0 && !p.gate.state.BlackHole?;
            && (a == Err(PacketIdExhausted) <==> p.counter.exhausted)
            && (a.Err? && a.error.Rejected? <==> !p.counter.exhausted && !Fits(p, c))
            && (a == Err(Rejected(PathMtuUnknown)) <==> !p.counter.exhausted && c.limit.None?)
            && (a == Err(Rejected(MtuReject.EmptyPayload)) <==> open && c.payloadLen == 0)
            && (a == Err(Rejected(PathMtuBlackHole)) <==> open && c.payloadLen > 0 && p.gate.state.BlackHole?)
            && (sighted && !Fits(p, c) <==>
                  c.limit.Some? && a == Err(Rejected(DatagramExceedsMtu(Saturate(52 + c.payloadLen),
                                                                        HeldTo(p.gate.state, c.limit.value)))))
  {
  }

  /**
    A send that fits is decided by the builder and the transport alone: with the
    previewed id and an envelope that encodes in the room left after the header it is
    handed over, and answers that id exactly when the transport takes it.
  */
  lemma FittingIsHandedOver(p: Pipe, c: Call)
    requires Fits(p, c)
    ensures var s := Send(p, c);
            var id := p.counter.next;
            var e := c.build(id);
            var encoded := Encode(e, HeldTo(p.gate.state, c.limit.value) - 52);
            && (e.header.packetId != id ==>
                  s.answer == Err(BuildMismatch(id, e.header.packetId)) && s.handed == None)
            && (e.header.packetId == id && encoded.Err? ==>
                  s.answer == Err(EncodeFailed(encoded.error)) && s.handed == None)
            && (e.header.packetId == id && encoded.Ok? ==>
                  && s.handed == Some(encoded.value)
                  && s.answer == match c.transmit(encoded.value) {
                                   case None => Ok(id)
                                   case Some(refusal) => Err(Transport(refusal))
                                 })
  {
  }

  /**
    Whatever the builder and the transport do, a datagram handed to the transport is
    no longer than the limit advertised in that call and decodes, under that limit,
    to the built envelope carrying the previewed identifier.
  */
  lemma HandedDatagramIsSound(p: Pipe, c: Call)
    requires Send(p, c).handed.Some?
    ensures var d := Send(p, c).handed.value;
            && c.limit.Some?
            && |d| <= c.limit.value
            && Decode(d, EffectivePayload(c.limit.value)) == Ok(c.build(p.counter.next))
            && c.build(p.counter.next).header.packetId == p.counter.next
            && !p.counter.exhausted
  {
    SyncNeverExceedsTransport(p.gate.state, c.limit.value);
    var synced := Sync(p.gate.state, c.limit.value).0;
    DecodeInvertsEncode(c.build(p.counter.next), EffectivePayload(synced.datagramMtu), EffectivePayload(c.limit.value));
  }

  /** A datagram reaches the transport exactly on the two outcomes that say so, and only success moves the counter. */
  lemma OnlySuccessCommits(p: Pipe, c: Call)
    ensures var s := Send(p, c);
            && (s.handed.Some? <==> s.answer.Ok? || s.answer.error.Transport?)
            && (s.answer.Ok? ==>
                  s.answer.value == p.counter.next && s.pipe.counter == Commit(p.counter, p.counter.next))
            && (s.answer.Err? ==> s.pipe.counter == p.counter)
            && (s.answer == Err(PacketIdExhausted) <==> p.counter.exhausted)
            && (p.counter.exhausted ==> s.pipe == p)
  {
  }

  // ---------------------------------------------------------------------
  // Whole runs
  // ---------------------------------------------------------------------

  /** Everything a caller may do: send, report path events, or use the gate directly. */
  datatype Op =
    | DoSend(call: Call)
    | DoDiscover(mtu: DatagramMtu)
    | DoReduce(mtu: DatagramMtu)
    | DoBlackhole
    | DoRecover(mtu: DatagramMtu)
    | DoAdmitPayload(len: nat)
    | DoAdmitDatagram(len: nat)
    | DoAdmitEnvelope(payloadLen: nat, datagramLen: nat)

  /** How a step shows in the counters. */
  datatype Kind =
    | Enqueued | EncodeFailure | TransportFailure | GateRejection | DirectAdmission | DirectRejection | Silent

  function SentKind(answer: Result<u64, SendError>): Kind {
    match answer
    case Ok(_) => Enqueued
    case Err(PacketIdExhausted) => Silent
    case Err(Rejected(_)) => GateRejection
    case Err(BuildMismatch(_, _)) => EncodeFailure
    case Err(EncodeFailed(_)) => EncodeFailure
    case Err(Transport(_)) => TransportFailure
  }

  function DirectKind<T>(r: Result<T, MtuReject>): Kind {
    if r.Ok? then DirectAdmission else DirectRejection
  }

  function Step(p: Pipe, op: Op): (Pipe, Kind) {
    match op
    case DoSend(c) => (Send(p, c).pipe, SentKind(Send(p, c).answer))
    case DoDiscover(mtu) => (p.(gate := Moved(p.gate, Discover(p.gate.state, mtu))), Silent)
    case DoReduce(mtu) => (p.(gate := Moved(p.gate, Reduce(p.gate.state, mtu))), Silent)
    case DoBlackhole => (p.(gate := Moved(p.gate, Blackhole(p.gate.state))), Silent)
    case DoRecover(mtu) => (p.(gate := Moved(p.gate, Recover(p.gate.state, mtu))), Silent)
    case DoAdmitPayload(len) => var (g, r) := AdmitPayload(p.gate, len); (p.(gate := g), DirectKind(r))
    case DoAdmitDatagram(len) => var (g, r) := AdmitDatagram(p.gate, len); (p.(gate := g), DirectKind(r))
    case DoAdmitEnvelope(a, b) => var (g, r) := AdmitEnvelope(p.gate, a, b); (p.(gate := g), DirectKind(r))
  }

  /** A known limit above `mtu` comes down to it and is remembered; nothing else moves. */
  function LoweredTo(s: PathMtuState, mtu: DatagramMtu): PathMtuState {
    if (s.Available? || s.Reduced?) && mtu < s.datagramMtu then Reduced(mtu, mtu - 52, s.datagramMtu) else s
  }

  /**
    Where each step leaves the path. Only a report of discovery or recovery says so
    whatever was known; a send with a live counter learns the advertised limit of an
    unknown path and, like a reported reduction, brings a known one down but not up.
  */
  lemma StepMovesPath(p: Pipe, op: Op)
    ensures var s, t := p.gate.state, Step(p, op).0.gate.state;
            match op
            case DoDiscover(mtu) => t == Available(mtu, mtu - 52)
            case DoRecover(mtu) => t == if s.BlackHole? then Available(mtu, mtu - 52) else s
            case DoReduce(mtu) => t == LoweredTo(s, mtu)
            case DoBlackhole => t == if s.Unknown? then s else BlackHole
            case DoSend(c) =>
              t == if p.counter.exhausted || c.limit.None? then s
                   else if s.Unknown? then Available(c.limit.value, c.limit.value - 52)
                   else LoweredTo(s, c.limit.value)
            case _ => t == s
  {
  }

  function Run(p: Pipe, ops: seq<Op>): Pipe {
    if |ops| == 0 then p else Step(Run(p, ops[..|ops| - 1]), ops[|ops| - 1]).0
  }

  /** How many steps of a kind a run had. */
  function Tally(p: Pipe, ops: seq<Op>, k: Kind): nat {
    if |ops| == 0 then 0
    else Tally(p, ops[..|ops| - 1], k) + if Step(Run(p, ops[..|ops| - 1]), ops[|ops| - 1]).1 == k then 1 else 0
  }

  function Issued(p: Pipe, op: Op): seq<u64> {
    if op.DoSend? && Send(p, op.call).answer.Ok? then [Send(p, op.call).answer.value] else []
  }

  /** The identifiers answered `Ok` by the sends of a run, in order. */
  function OkIds(p: Pipe, ops: seq<Op>): seq<u64> {
    if |ops| == 0 then []
    else
      OkIds(p, ops[..|ops| - 1]) + Issued(Run(p, ops[..|ops| - 1]), ops[|ops| - 1])
  }

  /** A step issues the head of the counter and moves it on, or leaves it alone. */
  lemma StepIssues(p: Pipe, op: Op)
    ensures var (t, k) := Step(p, op);
            && (k == Enqueued <==> Issued(p, op) != [])
            && (k == Enqueued ==> !p.counter.exhausted && Issued(p, op) == [p.counter.next])
            && t.counter == if k == Enqueued then Commit(p.counter, p.counter.next) else p.counter
  {
    if op.DoSend? {
      OnlySuccessCommits(p, op.call);
    }
  }

  /**
    Over any run against arbitrary builders and transports the identifiers answered
    `Ok` are start, start+1, ... without gap, repeat or wrap, and the counter is
    exhausted exactly when the last possible one has been used.
  */
  lemma {:induction false} OkIdsAreConsecutive(start: u64, gate: Gate, ops: seq<Op>)
    ensures var p := Pipe(gate, Counter(start, false));
            var ids := OkIds(p, ops);
            var c := Run(p, ops).counter;
            && (forall i :: 0 <= i < |ids| ==> ids[i] == start + i)
            && |ids| == Tally(p, ops, Enqueued)
            && start + |ids| <= U64_MAX + 1
            && (c.exhausted <==> start + |ids| == U64_MAX + 1)
            && c.next == if c.exhausted then U64_MAX else start + |ids|
  {
    if |ops| > 0 {
      var p := Pipe(gate, Counter(start, false));
      var before := ops[..|ops| - 1];
      OkIdsAreConsecutive(start, gate, before);
      StepIssues(Run(p, before), ops[|ops| - 1]);
    }
  }

  /** Once the last identifier has been issued every later send is refused and nothing is handed over. */
  lemma {:induction false} ExhaustionIsForever(p: Pipe, ops: seq<Op>, c: Call)
    requires p.counter.exhausted
    ensures Run(p, ops).counter == p.counter
    ensures Send(Run(p, ops), c) == Sent(Run(p, ops), Err(PacketIdExhausted), None)
  {
    if |ops| > 0 {
      ExhaustionIsForever(p, ops[..|ops| - 1], c);
    }
  }

  datatype Field =
    | Admitted | EnqueuedOnly | EncodeFailures | TransportFailures | Rejections | Reductions | Blackholes

  function Read(m: Metrics, f: Field): u64 {
    match f
    case Admitted => m.admitted
    case EnqueuedOnly => m.enqueued
    case EncodeFailures => m.encodeFailures
    case TransportFailures => m.transportFailures
    case Rejections => m.rejected
    case Reductions => m.reductions
    case Blackholes => m.blackholes
  }

  /** The path was sendable, and a report or a sync has put it on a smaller limit. */
  predicate Lowers(s: PathMtuState, t: PathMtuState) {
    !s.SendDenied() && t.Reduced? && t.datagramMtu < s.datagramMtu
  }

  /** Does a step of kind `k` between these states add one to counter `f`? */
  function Adds(k: Kind, s: PathMtuState, t: PathMtuState, f: Field): nat {
    match f
    case Admitted => if k.Enqueued? || k.EncodeFailure? || k.TransportFailure? || k.DirectAdmission? then 1 else 0
    case EnqueuedOnly => if k.Enqueued? then 1 else 0
    case EncodeFailures => if k.EncodeFailure? then 1 else 0
    case TransportFailures => if k.TransportFailure? then 1 else 0
    case Rejections => if k.GateRejection? || k.DirectRejection? then 1 else 0
    case Reductions => if Lowers(s, t) then 1 else 0
    case Blackholes => if !s.SendDenied() && t.BlackHole? then 1 else 0
  }

  function StepAdds(p: Pipe, op: Op, f: Field): nat {
    var (t, k) := Step(p, op);
    Adds(k, p.gate.state, t.gate.state, f)
  }

  lemma SendCounts(p: Pipe, c: Call, f: Field)
    ensures var s := Send(p, c);
            Read(s.pipe.gate.metrics, f)
            == Saturate(Read(p.gate.metrics, f) + Adds(SentKind(s.answer), p.gate.state, s.pipe.gate.state, f))
  {
    if f.Reductions? || f.Blackholes? {
      SendCountsEvents(p, c, f);
    } else {
      SendCountsOutcome(p, c, f);
    }
  }

  lemma SendCountsEvents(p: Pipe, c: Call, f: Field)
    requires f.Reductions? || f.Blackholes?
    ensures var s := Send(p, c);
            Read(s.pipe.gate.metrics, f)
            == Saturate(Read(p.gate.metrics, f) + Adds(SentKind(s.answer), p.gate.state, s.pipe.gate.state, f))
  {
  }

  lemma SendCountsOutcome(p: Pipe, c: Call, f: Field)
    requires !f.Reductions? && !f.Blackholes?
    ensures var s := Send(p, c);
            Read(s.pipe.gate.metrics, f)
            == Saturate(Read(p.gate.metrics, f) + Adds(SentKind(s.answer), p.gate.state, s.pipe.gate.state, f))
  {
  }

  lemma StepCounts(p: Pipe, op: Op, f: Field)
    ensures Read(Step(p, op).0.gate.metrics, f) == Saturate(Read(p.gate.metrics, f) + StepAdds(p, op, f))
  {
    if op.DoSend? {
      SendCounts(p, op.call, f);
    }
  }

  /** The true number of steps that a counter stands for. */
  function Stands(p: Pipe, ops: seq<Op>, f: Field): nat {
    if |ops| == 0 then 0
    else Stands(p, ops[..|ops| - 1], f) + StepAdds(Run(p, ops[..|ops| - 1]), ops[|ops| - 1], f)
  }

  /**
    Every counter is the saturated number of steps it stands for: sends and admissions
    by outcome, reductions to a smaller limit, and black holes of a sendable path.
  */
  lemma {:induction false} CountersTally(counter: Counter, state: PathMtuState, ops: seq<Op>, f: Field)
    ensures var p := Pipe(Gate(state, NO_METRICS), counter);
            Read(Run(p, ops).gate.metrics, f) == Saturate(Stands(p, ops, f))
  {
    if |ops| > 0 {
      CountersTally(counter, state, ops[..|ops| - 1], f);
      StepCounts(Run(Pipe(Gate(state, NO_METRICS), counter), ops[..|ops| - 1]), ops[|ops| - 1], f);
    }
  }

  /** The kinds of step an outcome counter stands for. */
  function TallyOf(p: Pipe, ops: seq<Op>, f: Field): nat {
    match f
    case Admitted =>
      Tally(p, ops, Enqueued) + Tally(p, ops, EncodeFailure) + Tally(p, ops, TransportFailure)
      + Tally(p, ops, DirectAdmission)
    case EnqueuedOnly => Tally(p, ops, Enqueued)
    case EncodeFailures => Tally(p, ops, EncodeFailure)
    case TransportFailures => Tally(p, ops, TransportFailure)
    case Rejections => Tally(p, ops, GateRejection) + Tally(p, ops, DirectRejection)
    case _ => 0
  }

  /** An admission is an enqueued, encode-failed or transport-failed send, or a direct admission, once each. */
  lemma {:induction false} StandsByKind(p: Pipe, ops: seq<Op>, f: Field)
    requires !f.Reductions? && !f.Blackholes?
    ensures Stands(p, ops, f) == TallyOf(p, ops, f)
  {
    if |ops| > 0 {
      StandsByKind(p, ops[..|ops| - 1], f);
    }
  }

  predicate NoDirectAdmission(ops: seq<Op>) {
    forall i :: 0 <= i < |ops| ==> !ops[i].DoAdmitPayload? && !ops[i].DoAdmitDatagram? && !ops[i].DoAdmitEnvelope?
  }

  lemma {:induction false} NoDirectAdmissionsTallied(p: Pipe, ops: seq<Op>)
    requires NoDirectAdmission(ops)
    ensures Tally(p, ops, DirectAdmission) == 0
  {
    if |ops| > 0 {
      NoDirectAdmissionsTallied(p, ops[..|ops| - 1]);
    }
  }

  /**
    Conservation: without direct admissions and until saturation, every admitted send
    is accounted for, and enqueued counts the committed identifiers.
  */
  lemma AdmittedIsConserved(start: u64, state: PathMtuState, ops: seq<Op>)
    requires NoDirectAdmission(ops)
    requires Run(Pipe(Gate(state, NO_METRICS), Counter(start, false)), ops).gate.metrics.admitted < U64_MAX
    ensures var p := Pipe(Gate(state, NO_METRICS), Counter(start, false));
            var m := Run(p, ops).gate.metrics;
            && m.admitted == m.enqueued + m.encodeFailures + m.transportFailures
            && m.enqueued == |OkIds(p, ops)|
  {
    forall f: Field {
      CountersTally(Counter(start, false), state, ops, f);
    }
    var p := Pipe(Gate(state, NO_METRICS), Counter(start, false));
    var m := Run(p, ops).gate.metrics;
    assert m.admitted == Read(m, Admitted) && m.enqueued == Read(m, EnqueuedOnly);
    assert m.encodeFailures == Read(m, EncodeFailures) && m.transportFailures == Read(m, TransportFailures);
    StandsByKind(p, ops, Admitted);
    StandsByKind(p, ops, EnqueuedOnly);
    StandsByKind(p, ops, EncodeFailures);
    StandsByKind(p, ops, TransportFailures);
    NoDirectAdmissionsTallied(p, ops);
    OkIdsAreConsecutive(start, Gate(state, NO_METRICS), ops);
  }

  /** Every reachable gate keeps its two limits in step. */
  lemma {:induction false} ReachableIsCoherent(p: Pipe, ops: seq<Op>)
    requires Coherent(p.gate.state)
    ensures Coherent(Run(p, ops).gate.state)
  {
    if |ops| > 0 {
      ReachableIsCoherent(p, ops[..|ops| - 1]);
      var before := Run(p, ops[..|ops| - 1]);
      var last := ops[|ops| - 1];
      if last.DoSend? && last.call.limit.Some? {
        assert Coherent(Sync(before.gate.state, last.call.limit.value).0);
      }
    }
  }

  /** A known limit goes up, or a black hole ends. */
  predicate LimitRises(s: PathMtuState, t: PathMtuState) {
    || (s.BlackHole? && !t.BlackHole?)
    || (!s.SendDenied() && !t.SendDenied() && t.datagramMtu > s.datagramMtu)
  }

  /**
    A step lifts the limit or ends a black hole if and only if it is a discovery,
    of more than the limit or out of a black hole, or a recovery out of one.
  */
  lemma LimitRisesExactly(p: Pipe, op: Op)
    ensures var s := p.gate.state;
            var t := Step(p, op).0.gate.state;
            && (LimitRises(s, t) <==>
                  || (op.DoDiscover? && (s.BlackHole? || (!s.SendDenied() && op.mtu > s.datagramMtu)))
                  || (op.DoRecover? && s.BlackHole?))
            && (!s.Unknown? ==> !t.Unknown?)
  {
    match op
    case DoSend(c) =>
      if c.limit.Some? {
        SyncNeverExceedsTransport(p.gate.state, c.limit.value);
      }
    case _ =>
  }

  /** Along a run with neither, a known limit never rises and a black hole never ends. */
  lemma {:induction false} SendingNeverLiftsLimit(p: Pipe, ops: seq<Op>)
    requires forall i :: 0 <= i < |ops| ==> !ops[i].DoDiscover? && !ops[i].DoRecover?
    ensures !LimitRises(p.gate.state, Run(p, ops).gate.state)
    ensures !p.gate.state.Unknown? ==> !Run(p, ops).gate.state.Unknown?
  {
    if |ops| > 0 {
      SendingNeverLiftsLimit(p, ops[..|ops| - 1]);
      LimitRisesExactly(Run(p, ops[..|ops| - 1]), ops[|ops| - 1]);
    }
  }

  /** Discovery does not wait for the unknown state: it lifts a known limit from 1200 to 1400. */
  lemma DiscoveryLiftsKnownLimit(c: Counter)
    ensures var start := Pipe(Gate(Unknown, NO_METRICS), c);
            && Run(start, [DoDiscover(1200)]).gate.state == Available(1200, 1148)
            && Run(start, [DoDiscover(1200), DoDiscover(1400)]).gate.state == Available(1400, 1348)
  {
    var ops := [DoDiscover(1200), DoDiscover(1400)];
    assert ops[..1] == [DoDiscover(1200)] && ops[..1][..0] == [];
  }
}
