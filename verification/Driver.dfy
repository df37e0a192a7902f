/**
  The blocking TUN driver as a machine of interleaved atomic steps: any number
  of sender threads, one worker thread that alone calls the backend, and the
  owner that receives. Each step is one atomic read-modify-write, one queue
  operation, one backend call, or one flag or failure-cell access; the stop test,
  which reads the flag and then the cell, is one step (`SplitStopTestIsAtomic`).
*/
module Driver {
  import opened Prelude

  type Packet = seq<u8>

  /** Egress lanes in drain order: realtime, interactive, bulk. */
  type LaneId = k: nat | k < 3

  datatype Class = Realtime | Interactive | Bulk | Control

  function ClassIndex(c: Class): Option<LaneId> {
    match c case Realtime => Some(0) case Interactive => Some(1) case Bulk => Some(2) case Control => None
  }

  /** Lane 0 is for realtime, lane 1 for interactive and lane 2 for bulk packets. */
  predicate Carries(k: LaneId, c: Class) {
    (k == 0 && c == Realtime) || (k == 1 && c == Interactive) || (k == 2 && c == Bulk)
  }

  datatype Config = Config(maxPacketBytes: nat, ingressMaxPackets: nat, ingressMaxBytes: nat,
                           egressMaxPacketsRealtime: nat, egressMaxPacketsInteractive: nat, egressMaxPacketsBulk: nat,
                           egressMaxBytesRealtime: nat, egressMaxBytesInteractive: nat, egressMaxBytesBulk: nat)
  {
    function EgressMaxPackets(k: LaneId): nat {
      match k
      case 0 => egressMaxPacketsRealtime
      case 1 => egressMaxPacketsInteractive
      case _ => egressMaxPacketsBulk
    }

    function EgressMaxBytes(k: LaneId): nat {
      match k
      case 0 => egressMaxBytesRealtime
      case 1 => egressMaxBytesInteractive
      case _ => egressMaxBytesBulk
    }
  }

  // ---------------------------------------------------------------------
  // State
  // ---------------------------------------------------------------------

  /**
    One egress queue with its two gauges, everything ever enqueued with the class
    each packet was sent as, and what the worker's exit discarded.
  */
  datatype Lane = Lane(gaugeBytes: int, gaugePackets: int, queue: seq<Packet>,
                       enqueued: seq<Packet>, sentAs: seq<Class>, discarded: seq<Packet>)

  const EMPTY_LANE := Lane(0, 0, [], [], [], [])

  type Lanes = s: seq<Lane> | |s| == 3
    witness [EMPTY_LANE, EMPTY_LANE, EMPTY_LANE]

  /** Where a sender thread stands inside `send`. */
  datatype Sender =
    | Idle
    | Checked(lane: LaneId, class_: Class, packet: Packet)        // about to reserve bytes
    | Overfull(lane: LaneId, class_: Class, packet: Packet)       // reserved beyond the bound, to be rolled back
    | Cleared(lane: LaneId, class_: Class, packet: Packet)        // bytes reserved, about to reserve the count
    | Posting(lane: LaneId, class_: Class, packet: Packet)        // about to enqueue
    | Refunding(lane: LaneId, class_: Class, packet: Packet)      // refused by the queue, bytes to be returned
    | RefundingCount(lane: LaneId, class_: Class, packet: Packet) // count to be returned

  datatype Fault = ReadFault | WriteFault | JoinRequired

  datatype Failure = Failure(kind: Fault, message: string)

  const DROPPED: string := "driver owner dropped without close; worker detached, join required"

  datatype Flags = Flags(failure: Option<Failure>, terminal: bool, shutdown: bool)

  /** Where the worker stands. */
  datatype Worker =
    | Top                                  // loop head
    | Turn(lane: LaneId)                   // about to look at this class
    | Took(lane: LaneId, packet: Packet)   // dequeued, both gauges still count it
    | Counted(lane: LaneId, packet: Packet) // the byte gauge still counts it
    | Writing(lane: LaneId, packet: Packet) // about to call write
    | TurnsDone                            // after the class loop
    | Reading                              // about to call read
    | Fetched(packet: Packet)              // read, counted as received
    | InOverfull(packet: Packet)
    | InCleared(packet: Packet)
    | InPosting(packet: Packet)
    | InDelivered                          // enqueued, delivery still to be counted
    | InRefunding(packet: Packet, full: bool)
    | InRefundingCount(packet: Packet, full: bool)
    | Failing(failure: Failure)            // about to record a fault
    | Publishing(kind: Fault)              // first fault recorded, about to raise the terminal signal
    | Exited

  datatype Owner = Open | Taking(packet: Packet) | TakingBytes(packet: Packet)
                 | DropFailing | DropPublishing | DropSignalling | Closing | Gone

  datatype Ingress = Ingress(gaugeBytes: int, gaugePackets: int, queue: seq<Packet>,
                             received: nat, delivered: nat, droppedPacket: nat, droppedByte: nat, droppedOversize: nat,
                             fetched: seq<Packet>, accepted: seq<Packet>, taken: seq<Packet>)

  /** A call into the backend and whether it succeeded. */
  datatype Call = WriteCall(pass: nat, lane: LaneId, packet: Packet, ok: bool) | ReadCall(ok: bool)

  datatype State = State(config: Config, lanes: Lanes, senders: seq<Sender>, worker: Worker, pass: nat,
                         flags: Flags, ingress: Ingress, owner: Owner, calls: seq<Call>)

  function Start(config: Config): State {
    State(config, [EMPTY_LANE, EMPTY_LANE, EMPTY_LANE], [], Top, 0, Flags(None, false, false),
          Ingress(0, 0, [], 0, 0, 0, 0, 0, [], [], []), Open, [])
  }

  // ---------------------------------------------------------------------
  // Steps
  // ---------------------------------------------------------------------

  /** What the backend answers to the call the worker is about to make. */
  datatype WriteAnswer = Wrote(count: nat) | WriteError(message: string)

  /** `Nothing` is a timeout or an interruption. */
  datatype ReadAnswer = Read(packet: Packet) | Nothing | ReadError(message: string)

  datatype OwnerCommand = Receive | Drop | Close

  datatype Action =
    | Spawn                                           // another sender handle
    | Begin(sender: nat, class_: Class, packet: Packet) // a call to send
    | Continue(sender: nat)                            // its next atomic step
    | Work(write: WriteAnswer, read: ReadAnswer)
    | Own(command: OwnerCommand)
    | Shutdown

  predicate Stopping(s: State) {
    s.flags.shutdown || s.flags.failure.Some?
  }

  /** The checks at the head of `send`; a rejected packet leaves every queue and gauge alone. */
  predicate SendAccepted(s: State, c: Class, packet: Packet) {
    !Stopping(s) && ClassIndex(c).Some? && packet != [] && |packet| <= s.config.maxPacketBytes
  }

  function AtSender(s: State, i: nat, sender: Sender): State
    requires i < |s.senders|
  {
    s.(senders := s.senders[i := sender])
  }

  function OnLane(s: State, k: LaneId, lane: Lane): State {
    s.(lanes := s.lanes[k := lane])
  }

  /** What a sender's next step does to its lane; `closed` says whether the queue has lost its receiver. */
  function LaneAfter(lane: Lane, x: Sender, maxPackets: nat, closed: bool): Lane {
    match x
    case Checked(_, _, p) => lane.(gaugeBytes := lane.gaugeBytes + |p|)
    case Overfull(_, _, p) => lane.(gaugeBytes := lane.gaugeBytes - |p|)
    case Cleared(_, _, p) => lane.(gaugePackets := lane.gaugePackets + 1)
    case Posting(_, c, p) =>
      if closed || |lane.queue| >= maxPackets then lane
      else lane.(queue := lane.queue + [p], enqueued := lane.enqueued + [p], sentAs := lane.sentAs + [c])
    case Refunding(_, _, p) => lane.(gaugeBytes := lane.gaugeBytes - |p|)
    case RefundingCount(_, _, p) => lane.(gaugePackets := lane.gaugePackets - 1)
    case Idle => lane
  }

  /** Where that step leaves the sender. The byte bound is tested on the value the gauge had. */
  function SenderAfter(lane: Lane, x: Sender, maxPackets: nat, maxBytes: nat, closed: bool): Sender {
    match x
    case Checked(k, c, p) => if lane.gaugeBytes + |p| > maxBytes then Overfull(k, c, p) else Cleared(k, c, p)
    case Overfull(_, _, _) => Idle
    case Cleared(k, c, p) => Posting(k, c, p)
    case Posting(k, c, p) => if closed || |lane.queue| >= maxPackets then Refunding(k, c, p) else Idle
    case Refunding(k, c, p) => RefundingCount(k, c, p)
    case RefundingCount(_, _, _) => Idle
    case Idle => Idle
  }

  /** The next atomic step of a sender inside `send`. */
  function StepSender(s: State, i: nat): State
    requires i < |s.senders|
  {
    var x := s.senders[i];
    if x.Idle? then s
    else
      var k := x.lane;
      AtSender(OnLane(s, k, LaneAfter(s.lanes[k], x, s.config.EgressMaxPackets(k), s.worker.Exited?)), i,
               SenderAfter(s.lanes[k], x, s.config.EgressMaxPackets(k), s.config.EgressMaxBytes(k), s.worker.Exited?))
  }

  function Discard(lane: Lane): Lane {
    lane.(queue := [], discarded := lane.queue)
  }

  /** The worker returns: its queues close and what they hold is lost. */
  function Exit(s: State): State {
    s.(worker := Exited, lanes := [Discard(s.lanes[0]), Discard(s.lanes[1]), Discard(s.lanes[2])])
  }

  function AfterTurn(k: LaneId): Worker {
    if k == 2 then TurnsDone else Turn(k + 1)
  }

  /** Decimal notation. */
  function Decimal(n: nat): string {
    if n < 10 then [('0' as nat + n) as char] else Decimal(n / 10) + [('0' as nat + n % 10) as char]
  }

  function WriteOutcome(p: Packet, answer: WriteAnswer): Option<Failure> {
    match answer
    case Wrote(n) =>
      if n == |p| then None
      else if n == 0 then Some(Failure(WriteFault, "backend wrote zero bytes"))
      else Some(Failure(WriteFault, "backend partial write " + Decimal(n) + "/" + Decimal(|p|)))
    case WriteError(message) => Some(Failure(WriteFault, message))
  }

  /** The worker's egress steps: the loop head and one turn per class. */
  function StepEgress(s: State, answer: WriteAnswer): State {
    match s.worker
    case Top => if Stopping(s) then Exit(s) else s.(worker := Turn(0), pass := s.pass + 1)
    case Turn(k) =>
      if Stopping(s) then s.(worker := TurnsDone)
      else if s.lanes[k].queue == [] then s.(worker := AfterTurn(k))
      else
        var lane := s.lanes[k];
        OnLane(s, k, lane.(queue := lane.queue[1..])).(worker := Took(k, lane.queue[0]))
    case Took(k, p) => OnLane(s, k, s.lanes[k].(gaugePackets := s.lanes[k].gaugePackets - 1)).(worker := Counted(k, p))
    case Counted(k, p) => OnLane(s, k, s.lanes[k].(gaugeBytes := s.lanes[k].gaugeBytes - |p|)).(worker := Writing(k, p))
    case Writing(k, p) =>
      var fault := WriteOutcome(p, answer);
      s.(calls := s.calls + [WriteCall(s.pass, k, p, fault.None?)],
         worker := if fault.None? then AfterTurn(k) else Failing(fault.value))
    case TurnsDone => if Stopping(s) then Exit(s) else s.(worker := Reading)
    case _ => s
  }

  /** The read, and what becomes of its answer. */
  function StepRead(s: State, answer: ReadAnswer): State {
    var q := s.ingress;
    match answer
    case Read(p) =>
      if p == [] then
        s.(calls := s.calls + [ReadCall(false)], worker := Failing(Failure(ReadFault, "backend returned zero bytes")))
      else if |p| > s.config.maxPacketBytes then
        s.(calls := s.calls + [ReadCall(true)], worker := Top,
           ingress := q.(received := q.received + 1, fetched := q.fetched + [p],
                         droppedOversize := q.droppedOversize + 1))
      else
        s.(calls := s.calls + [ReadCall(true)], worker := Fetched(p),
           ingress := q.(received := q.received + 1, fetched := q.fetched + [p]))
    case Nothing => s.(calls := s.calls + [ReadCall(true)], worker := Top)
    case ReadError(message) => s.(calls := s.calls + [ReadCall(false)], worker := Failing(Failure(ReadFault, message)))
  }

  /** The worker's ingress steps: reserve, enqueue, or drop what was read. */
  function StepIngress(s: State): State {
    var q := s.ingress;
    match s.worker
    case Fetched(p) =>
      s.(ingress := q.(gaugeBytes := q.gaugeBytes + |p|),
         worker := if q.gaugeBytes + |p| > s.config.ingressMaxBytes then InOverfull(p) else InCleared(p))
    case InOverfull(p) =>
      s.(ingress := q.(gaugeBytes := q.gaugeBytes - |p|, droppedByte := q.droppedByte + 1), worker := Top)
    case InCleared(p) => s.(ingress := q.(gaugePackets := q.gaugePackets + 1), worker := InPosting(p))
    case InPosting(p) =>
      if s.owner.Gone? then s.(worker := InRefunding(p, false))
      else if |q.queue| >= s.config.ingressMaxPackets then s.(worker := InRefunding(p, true))
      else s.(ingress := q.(queue := q.queue + [p], accepted := q.accepted + [p]), worker := InDelivered)
    case InDelivered => s.(ingress := q.(delivered := q.delivered + 1), worker := Top)
    case InRefunding(p, full) =>
      s.(ingress := q.(gaugeBytes := q.gaugeBytes - |p|), worker := InRefundingCount(p, full))
    case InRefundingCount(p, full) =>
      if full then
        s.(ingress := q.(gaugePackets := q.gaugePackets - 1, droppedPacket := q.droppedPacket + 1), worker := Top)
      else Exit(s.(ingress := q.(gaugePackets := q.gaugePackets - 1)))
    case _ => s
  }

  /** Recording a fault: the first one wins, and only it raises the terminal signal. */
  function StepFault(s: State): State {
    match s.worker
    case Failing(f) =>
      if s.flags.failure.None? then s.(flags := s.flags.(failure := Some(f)), worker := Publishing(f.kind))
      else AfterFault(s, f.kind)
    case Publishing(kind) => AfterFault(s.(flags := s.flags.(terminal := true)), kind)
    case _ => s
  }

  /** The next atomic step of the worker; an answer is used only where the backend is called. */
  function StepWorker(s: State, write: WriteAnswer, read: ReadAnswer): State {
    if s.worker.Exited? then s
    else if s.worker.Failing? || s.worker.Publishing? then StepFault(s)
    else if s.worker.Reading? then StepRead(s, read)
    else if InEgress(s.worker) then StepEgress(s, write)
    else StepIngress(s)
  }

  predicate InEgress(w: Worker) {
    w.Top? || w.Turn? || w.Took? || w.Counted? || w.Writing? || w.TurnsDone?
  }

  /** A write fault leaves the class loop, a read fault leaves the worker. */
  function AfterFault(s: State, kind: Fault): State {
    if kind == WriteFault then s.(worker := TurnsDone) else Exit(s)
  }

  /** The owner receives, drops the driver without closing it, closes it, or gives up a close while the worker runs. */
  function StepOwner(s: State, c: OwnerCommand): State {
    var q := s.ingress;
    match s.owner
    case Open =>
      (match c
       case Receive =>
         if s.flags.failure.Some? || q.queue == [] then s
         else s.(ingress := q.(queue := q.queue[1..], taken := q.taken + [q.queue[0]]), owner := Taking(q.queue[0]))
       case Drop => s.(owner := DropFailing)
       case Close => s.(flags := s.flags.(shutdown := true), owner := Closing))
    case Taking(p) => s.(ingress := q.(gaugePackets := q.gaugePackets - 1), owner := TakingBytes(p))
    case TakingBytes(p) => s.(ingress := q.(gaugeBytes := q.gaugeBytes - |p|), owner := Open)
    case DropFailing =>
      if s.flags.failure.None? then
        s.(flags := s.flags.(failure := Some(Failure(JoinRequired, DROPPED))), owner := DropPublishing)
      else s.(owner := DropSignalling)
    case DropPublishing => s.(flags := s.flags.(terminal := true), owner := DropSignalling)
    case DropSignalling => s.(flags := s.flags.(shutdown := true), owner := Gone)
    case Closing => if s.worker.Exited? || c == Drop then s.(owner := Gone) else s
    case Gone => s
  }

  /** One step of the machine; an action that is not enabled does nothing. */
  function Apply(s: State, a: Action): State {
    match a
    case Spawn => s.(senders := s.senders + [Idle])
    case Begin(i, c, p) =>
      if i < |s.senders| && s.senders[i] == Idle && SendAccepted(s, c, p)
      then AtSender(s, i, Checked(ClassIndex(c).value, c, p)) else s
    case Continue(i) => if i < |s.senders| then StepSender(s, i) else s
    case Work(write, read) => StepWorker(s, write, read)
    case Own(c) => StepOwner(s, c)
    case Shutdown => s.(flags := s.flags.(shutdown := true))
  }

  function Run(s: State, actions: seq<Action>): State {
    if actions == [] then s else Apply(Run(s, actions[..|actions| - 1]), actions[|actions| - 1])
  }

  // ---------------------------------------------------------------------
  // Sums over packets and over sender threads
  // ---------------------------------------------------------------------

  function Bytes(q: seq<Packet>): nat {
    if q == [] then 0 else Bytes(q[..|q| - 1]) + |q[|q| - 1]|
  }

  lemma {:induction false} BytesAppend(a: seq<Packet>, b: seq<Packet>)
    ensures Bytes(a + b) == Bytes(a) + Bytes(b)
    decreases |b|
  {
    if b == [] {
      assert a + b == a;
    } else {
      assert (a + b)[..|a + b| - 1] == a + b[..|b| - 1];
      BytesAppend(a, b[..|b| - 1]);
    }
  }

  lemma BytesCons(q: seq<Packet>)
    requires q != []
    ensures Bytes(q) == |q[0]| + Bytes(q[1..])
  {
    var front: seq<Packet> := [q[0]];
    assert q == front + q[1..] && front[..0] == [];
    BytesAppend(front, q[1..]);
  }

  datatype Measure =
    | ReservedBytes(lane: LaneId)  // bytes a sender has added to the gauge and not taken back
    | ReservedCount(lane: LaneId)
    | ClearedBytes(lane: LaneId)   // bytes of senders that may still enqueue

  function Weigh(m: Measure, s: Sender): nat {
    match m
    case ReservedBytes(k) =>
      if (s.Overfull? || s.Cleared? || s.Posting? || s.Refunding?) && s.lane == k then |s.packet| else 0
    case ReservedCount(k) => if (s.Posting? || s.Refunding? || s.RefundingCount?) && s.lane == k then 1 else 0
    case ClearedBytes(k) => if (s.Cleared? || s.Posting?) && s.lane == k then |s.packet| else 0
  }

  function Total(m: Measure, senders: seq<Sender>): nat {
    if senders == [] then 0 else Total(m, senders[..|senders| - 1]) + Weigh(m, senders[|senders| - 1])
  }

  lemma {:induction false} TotalUpdate(m: Measure, senders: seq<Sender>, i: nat, x: Sender)
    requires i < |senders|
    ensures Total(m, senders[i := x]) == Total(m, senders) - Weigh(m, senders[i]) + Weigh(m, x)
  {
    var n := |senders| - 1;
    if i < n {
      TotalUpdate(m, senders[..n], i, x);
      assert senders[i := x][..n] == senders[..n][i := x];
    } else {
      assert senders[i := x][..n] == senders[..n];
    }
  }

  lemma {:induction false} ClearedAreReserved(k: LaneId, senders: seq<Sender>)
    ensures Total(ClearedBytes(k), senders) <= Total(ReservedBytes(k), senders)
  {
    if senders != [] {
      ClearedAreReserved(k, senders[..|senders| - 1]);
    }
  }

  // ---------------------------------------------------------------------
  // Egress gauges
  // ---------------------------------------------------------------------

  function WorkerBytes(w: Worker, k: LaneId): nat {
    if (w.Took? || w.Counted?) && w.lane == k then |w.packet| else 0
  }

  function WorkerCount(w: Worker, k: LaneId): nat {
    if w.Took? && w.lane == k then 1 else 0
  }

  /** Sums of what is in flight on one lane. */
  datatype Flight = Flight(bytes: nat, count: nat, cleared: nat, workerBytes: nat, workerCount: nat)

  function FlightOf(s: State, k: LaneId): Flight {
    Flight(Total(ReservedBytes(k), s.senders), Total(ReservedCount(k), s.senders), Total(ClearedBytes(k), s.senders),
           WorkerBytes(s.worker, k), WorkerCount(s.worker, k))
  }

  /** Each gauge is its queue plus everything in flight, and the queue with the clearances stays in bounds. */
  ghost predicate Balanced(lane: Lane, f: Flight, maxPackets: nat, maxBytes: nat, closed: bool) {
    && lane.gaugeBytes == Bytes(lane.queue) + Bytes(lane.discarded) + f.bytes + f.workerBytes
    && lane.gaugePackets == |lane.queue| + |lane.discarded| + f.count + f.workerCount
    && Bytes(lane.queue) + f.cleared <= maxBytes
    && |lane.queue| <= maxPackets
    && (if closed then lane.queue == [] else lane.discarded == [])
  }

  ghost predicate LaneBalanced(s: State, k: LaneId) {
    Balanced(s.lanes[k], FlightOf(s, k), s.config.EgressMaxPackets(k), s.config.EgressMaxBytes(k), s.worker.Exited?)
  }

  /** How a sender's move from `x` to `y` changes the sums of lane `k`. */
  function Moved(f: Flight, k: LaneId, x: Sender, y: Sender): (int, int, int) {
    (f.bytes - Weigh(ReservedBytes(k), x) + Weigh(ReservedBytes(k), y),
     f.count - Weigh(ReservedCount(k), x) + Weigh(ReservedCount(k), y),
     f.cleared - Weigh(ClearedBytes(k), x) + Weigh(ClearedBytes(k), y))
  }

  lemma FlightMoves(s: State, t: State, k: LaneId, i: nat, y: Sender)
    requires i < |s.senders| && t.senders == s.senders[i := y] && t.worker == s.worker
    ensures FlightOf(t, k).workerBytes == FlightOf(s, k).workerBytes
    ensures FlightOf(t, k).workerCount == FlightOf(s, k).workerCount
    ensures (FlightOf(t, k).bytes, FlightOf(t, k).count, FlightOf(t, k).cleared)
            == Moved(FlightOf(s, k), k, s.senders[i], y)
  {
    TotalUpdate(ReservedBytes(k), s.senders, i, y);
    TotalUpdate(ReservedCount(k), s.senders, i, y);
    TotalUpdate(ClearedBytes(k), s.senders, i, y);
  }

  lemma SenderKeepsOwnLane(lane: Lane, f: Flight, g: Flight, x: Sender, maxPackets: nat, maxBytes: nat, closed: bool)
    requires Balanced(lane, f, maxPackets, maxBytes, closed) && !x.Idle?
    requires f.cleared <= f.bytes
    requires g.workerBytes == f.workerBytes && g.workerCount == f.workerCount
    requires (g.bytes, g.count, g.cleared) == Moved(f, x.lane, x, SenderAfter(lane, x, maxPackets, maxBytes, closed))
    ensures Balanced(LaneAfter(lane, x, maxPackets, closed), g, maxPackets, maxBytes, closed)
  {
    if x.Posting? {
      var posted: seq<Packet> := [x.packet];
      BytesAppend(lane.queue, posted);
      assert posted[..0] == [];
    }
  }

  lemma SenderKeepsBalance(s: State, i: nat, k: LaneId)
    requires i < |s.senders| && LaneBalanced(s, k)
    ensures LaneBalanced(StepSender(s, i), k)
  {
    var x := s.senders[i];
    var t := StepSender(s, i);
    if !x.Idle? {
      FlightMoves(s, t, k, i, t.senders[i]);
      if x.lane == k {
        ClearedAreReserved(k, s.senders);
        SenderKeepsOwnLane(s.lanes[k], FlightOf(s, k), FlightOf(t, k), x,
                           s.config.EgressMaxPackets(k), s.config.EgressMaxBytes(k), s.worker.Exited?);
      } else {
        assert t.lanes[k] == s.lanes[k];
      }
    }
  }

  /** A step that leaves a lane and the sums over it alone keeps its balance. */
  lemma UntouchedKeepsBalance(s: State, t: State, k: LaneId)
    requires LaneBalanced(s, k)
    requires t.config == s.config && t.senders == s.senders && t.lanes[k] == s.lanes[k]
    requires WorkerBytes(t.worker, k) == WorkerBytes(s.worker, k)
    requires WorkerCount(t.worker, k) == WorkerCount(s.worker, k)
    requires t.worker.Exited? == s.worker.Exited?
    ensures LaneBalanced(t, k)
  {
  }

  lemma ExitKeepsBalance(s: State, k: LaneId)
    requires LaneBalanced(s, k) && !s.worker.Exited?
    requires WorkerBytes(s.worker, k) == 0 && WorkerCount(s.worker, k) == 0
    ensures LaneBalanced(Exit(s), k)
  {
    assert Exit(s).lanes[k] == Discard(s.lanes[k]);
  }

  /** The worker takes the front of its own lane, or finds it empty. */
  lemma TakingKeepsBalance(s: State, answer: WriteAnswer, k: LaneId)
    requires LaneBalanced(s, k) && s.worker == Turn(k)
    ensures LaneBalanced(StepEgress(s, answer), k)
  {
    if StepEgress(s, answer).worker.Took? {
      BytesCons(s.lanes[k].queue);
    }
  }

  /** It gives up the gauges of what it took. */
  lemma UncountingKeepsBalance(s: State, answer: WriteAnswer, k: LaneId)
    requires LaneBalanced(s, k) && (s.worker.Took? || s.worker.Counted?) && s.worker.lane == k
    ensures LaneBalanced(StepEgress(s, answer), k)
  {
  }

  lemma EgressKeepsBalance(s: State, answer: WriteAnswer, k: LaneId)
    requires LaneBalanced(s, k) && InEgress(s.worker)
    ensures LaneBalanced(StepEgress(s, answer), k)
  {
    var t := StepEgress(s, answer);
    if t.worker.Exited? {
      ExitKeepsBalance(s, k);
    } else if s.worker == Turn(k) {
      TakingKeepsBalance(s, answer, k);
    } else if (s.worker.Took? || s.worker.Counted?) && s.worker.lane == k {
      UncountingKeepsBalance(s, answer, k);
    } else {
      UntouchedKeepsBalance(s, t, k);
    }
  }

  /** Away from egress a step leaves the lanes alone, or the worker exits. */
  lemma OtherWorkFrame(s: State, write: WriteAnswer, read: ReadAnswer)
    requires !InEgress(s.worker)
    ensures var t := StepWorker(s, write, read);
            if t.worker.Exited? && !s.worker.Exited? then t == Exit(s.(flags := t.flags, ingress := t.ingress))
            else
              && t.lanes == s.lanes && t.senders == s.senders && t.config == s.config
              && t.worker.Exited? == s.worker.Exited? && !t.worker.Took? && !t.worker.Counted?
  {
  }

  lemma WorkerKeepsBalance(s: State, write: WriteAnswer, read: ReadAnswer, k: LaneId)
    requires LaneBalanced(s, k)
    ensures LaneBalanced(StepWorker(s, write, read), k)
  {
    var t := StepWorker(s, write, read);
    if InEgress(s.worker) {
      EgressKeepsBalance(s, write, k);
    } else {
      OtherWorkFrame(s, write, read);
      if t.worker.Exited? && !s.worker.Exited? {
        ExitKeepsBalance(s.(flags := t.flags, ingress := t.ingress), k);
      } else {
        UntouchedKeepsBalance(s, t, k);
      }
    }
  }

  lemma BeginKeepsBalance(s: State, i: nat, x: Sender, k: LaneId)
    requires LaneBalanced(s, k) && i < |s.senders| && s.senders[i] == Idle && x.Checked?
    ensures LaneBalanced(AtSender(s, i, x), k)
  {
    FlightMoves(s, AtSender(s, i, x), k, i, x);
  }

  lemma StepKeepsBalance(s: State, a: Action, k: LaneId)
    requires LaneBalanced(s, k)
    ensures LaneBalanced(Apply(s, a), k)
  {
    match a
    case Spawn =>
      assert (s.senders + [Idle])[..|s.senders|] == s.senders;
    case Begin(i, c, p) =>
      if i < |s.senders| && s.senders[i] == Idle && SendAccepted(s, c, p) {
        BeginKeepsBalance(s, i, Checked(ClassIndex(c).value, c, p), k);
      }
    case Continue(i) => if i < |s.senders| { SenderKeepsBalance(s, i, k); }
    case Work(write, read) => WorkerKeepsBalance(s, write, read, k);
    case Own(c) =>
    case Shutdown =>
  }

  lemma {:induction false} ReachableIsBalanced(config: Config, actions: seq<Action>, k: LaneId)
    ensures LaneBalanced(Run(Start(config), actions), k)
  {
    if actions != [] {
      ReachableIsBalanced(config, actions[..|actions| - 1], k);
      StepKeepsBalance(Run(Start(config), actions[..|actions| - 1]), actions[|actions| - 1], k);
    }
  }

  /**
    Under any interleaving the bytes and packets actually queued in a class never
    exceed the bounds set for it and no gauge falls below its queue.
  */
  lemma QueuesStayWithinBounds(config: Config, actions: seq<Action>)
    ensures var lanes := Run(Start(config), actions).lanes;
            && Bytes(lanes[0].queue) <= config.egressMaxBytesRealtime
            && Bytes(lanes[1].queue) <= config.egressMaxBytesInteractive
            && Bytes(lanes[2].queue) <= config.egressMaxBytesBulk
            && |lanes[0].queue| <= config.egressMaxPacketsRealtime
            && |lanes[1].queue| <= config.egressMaxPacketsInteractive
            && |lanes[2].queue| <= config.egressMaxPacketsBulk
            && forall k: LaneId ::
                 lanes[k].gaugeBytes >= Bytes(lanes[k].queue) && lanes[k].gaugePackets >= |lanes[k].queue|
  {
    var s := Run(Start(config), actions);
    ConfigIsConstant(Start(config), actions);
    forall k: LaneId
      ensures Bytes(s.lanes[k].queue) <= config.EgressMaxBytes(k) && |s.lanes[k].queue| <= config.EgressMaxPackets(k)
      ensures s.lanes[k].gaugeBytes >= Bytes(s.lanes[k].queue) && s.lanes[k].gaugePackets >= |s.lanes[k].queue|
    {
      ReachableIsBalanced(config, actions, k);
    }
    assert (config.EgressMaxBytes(0), config.EgressMaxPackets(0))
           == (config.egressMaxBytesRealtime, config.egressMaxPacketsRealtime);
    assert (config.EgressMaxBytes(1), config.EgressMaxPackets(1))
           == (config.egressMaxBytesInteractive, config.egressMaxPacketsInteractive);
  }

  lemma {:induction false} ConfigIsConstant(s: State, actions: seq<Action>)
    ensures Run(s, actions).config == s.config
  {
    if actions != [] {
      ConfigIsConstant(s, actions[..|actions| - 1]);
    }
  }

  lemma {:induction false} IdleReserveNothing(m: Measure, senders: seq<Sender>)
    requires forall i :: 0 <= i < |senders| ==> senders[i] == Idle
    ensures Total(m, senders) == 0
  {
    if senders != [] {
      IdleReserveNothing(m, senders[..|senders| - 1]);
    }
  }

  /** Once every send has returned and the running worker is between packets, each gauge equals its queue's contents. */
  lemma SettledGaugesEqualQueues(config: Config, actions: seq<Action>, k: LaneId)
    requires var s := Run(Start(config), actions);
             && (forall i :: 0 <= i < |s.senders| ==> s.senders[i] == Idle)
             && !s.worker.Exited? && !s.worker.Took? && !s.worker.Counted?
    ensures var lane := Run(Start(config), actions).lanes[k];
            lane.gaugeBytes == Bytes(lane.queue) && lane.gaugePackets == |lane.queue|
  {
    var s := Run(Start(config), actions);
    ReachableIsBalanced(config, actions, k);
    IdleReserveNothing(ReservedBytes(k), s.senders);
    IdleReserveNothing(ReservedCount(k), s.senders);
  }

  // ---------------------------------------------------------------------
  // A send that nothing interferes with
  // ---------------------------------------------------------------------

  function Continued(s: State, i: nat, n: nat): (t: State)
    ensures |t.senders| == |s.senders|
  {
    if n == 0 then s else Apply(Continued(s, i, n - 1), Continue(i))
  }

  /**
    A send goes on exactly with a data class and a packet that is neither empty nor
    oversize, while nothing has stopped; it then heads for the lane of its class.
  */
  lemma BeginTakesExactly(s: State, i: nat, c: Class, p: Packet)
    requires i < |s.senders| && s.senders[i] == Idle
    ensures Apply(s, Begin(i, c, p)) ==
            if !s.flags.shutdown && s.flags.failure.None? && c != Control && 1 <= |p| <= s.config.maxPacketBytes
            then AtSender(s, i, Checked(if c == Realtime then 0 else if c == Interactive then 1 else 2, c, p))
            else s
  {
    assert p != [] <==> |p| >= 1;
  }

  /** A send under way that finds its lane's gauges at their queue's contents. */
  predicate Settled(s: State, i: nat, k: LaneId, c: Class, p: Packet) {
    && i < |s.senders| && s.senders[i] == Checked(k, c, p)
    && s.lanes[k].gaugeBytes == Bytes(s.lanes[k].queue) && s.lanes[k].gaugePackets == |s.lanes[k].queue|
  }

  /** What a send that is not interfered with finds. */
  datatype Finding = Enqueues | ByteLimit | QueueFull

  function Finds(s: State, k: LaneId, p: Packet): Finding {
    if Bytes(s.lanes[k].queue) + |p| > s.config.EgressMaxBytes(k) then ByteLimit
    else if s.worker.Exited? || |s.lanes[k].queue| >= s.config.EgressMaxPackets(k) then QueueFull
    else Enqueues
  }

  lemma ByteLimitUndone(s: State, i: nat, k: LaneId, c: Class, p: Packet)
    requires Settled(s, i, k, c, p) && Finds(s, k, p).ByteLimit?
    ensures Continued(s, i, 2) == AtSender(s, i, Idle)
  {
    var lane := s.lanes[k];
    assert lane.gaugeBytes + |p| > s.config.EgressMaxBytes(k);
    var one := StepSender(s, i);
    assert one == AtSender(OnLane(s, k, lane.(gaugeBytes := lane.gaugeBytes + |p|)), i, Overfull(k, c, p));
    assert Continued(s, i, 1) == one;
    assert StepSender(one, i).lanes == s.lanes;
    assert StepSender(one, i) == AtSender(s, i, Idle);
  }

  lemma ClearedAfterTwo(s: State, i: nat, k: LaneId, c: Class, p: Packet)
    requires Settled(s, i, k, c, p) && !Finds(s, k, p).ByteLimit?
    ensures var lane := s.lanes[k];
            Continued(s, i, 2) == AtSender(OnLane(s, k, lane.(gaugeBytes := lane.gaugeBytes + |p|,
                                                              gaugePackets := lane.gaugePackets + 1)),
                                           i, Posting(k, c, p))
  {
    assert Continued(s, i, 1).senders[i] == Cleared(k, c, p);
  }

  lemma RefusedAfterThree(s: State, i: nat, k: LaneId, c: Class, p: Packet)
    requires Settled(s, i, k, c, p) && Finds(s, k, p).QueueFull?
    ensures var lane := s.lanes[k];
            Continued(s, i, 3) == AtSender(OnLane(s, k, lane.(gaugeBytes := lane.gaugeBytes + |p|,
                                                              gaugePackets := lane.gaugePackets + 1)),
                                           i, Refunding(k, c, p))
  {
    ClearedAfterTwo(s, i, k, c, p);
  }

  /** The two steps that give a refused packet's reservation back. */
  lemma RefundTwice(s: State, i: nat, k: LaneId, c: Class, p: Packet)
    requires i < |s.senders| && s.senders[i] == Refunding(k, c, p)
    ensures var lane := s.lanes[k];
            Apply(Apply(s, Continue(i)), Continue(i))
            == AtSender(OnLane(s, k, lane.(gaugeBytes := lane.gaugeBytes - |p|, gaugePackets := lane.gaugePackets - 1)),
                        i, Idle)
  {
    assert Apply(s, Continue(i)).senders[i] == RefundingCount(k, c, p);
  }

  lemma FullUndone(s: State, i: nat, k: LaneId, c: Class, p: Packet)
    requires Settled(s, i, k, c, p) && Finds(s, k, p).QueueFull?
    ensures Continued(s, i, 5) == AtSender(s, i, Idle)
  {
    RefusedAfterThree(s, i, k, c, p);
    RefundTwice(Continued(s, i, 3), i, k, c, p);
    assert Continued(s, i, 5).lanes == s.lanes;
  }

  lemma PostsWhereRoom(s: State, i: nat, k: LaneId, c: Class, p: Packet)
    requires i < |s.senders| && s.senders[i] == Posting(k, c, p) && !s.worker.Exited?
    requires |s.lanes[k].queue| < s.config.EgressMaxPackets(k)
    ensures var lane := s.lanes[k];
            StepSender(s, i) == AtSender(OnLane(s, k, lane.(queue := lane.queue + [p], enqueued := lane.enqueued + [p],
                                                            sentAs := lane.sentAs + [c])), i, Idle)
  {
  }

  lemma PostedAfterThree(s: State, i: nat, k: LaneId, c: Class, p: Packet)
    requires Settled(s, i, k, c, p) && Finds(s, k, p).Enqueues?
    ensures var lane := s.lanes[k];
            Continued(s, i, 3) == AtSender(OnLane(s, k, Lane(lane.gaugeBytes + |p|, lane.gaugePackets + 1,
                                                             lane.queue + [p], lane.enqueued + [p],
                                                             lane.sentAs + [c], lane.discarded)), i, Idle)
  {
    var lane := s.lanes[k];
    var reserved := lane.(gaugeBytes := lane.gaugeBytes + |p|, gaugePackets := lane.gaugePackets + 1);
    var posted := reserved.(queue := lane.queue + [p], enqueued := lane.enqueued + [p], sentAs := lane.sentAs + [c]);
    ClearedAfterTwo(s, i, k, c, p);
    PostsWhereRoom(Continued(s, i, 2), i, k, c, p);
    LaterUpdateWins(s, i, k, reserved, Posting(k, c, p), posted, Idle);
  }

  lemma LaterUpdateWins(s: State, i: nat, k: LaneId, lane: Lane, x: Sender, later: Lane, y: Sender)
    requires i < |s.senders|
    ensures AtSender(OnLane(AtSender(OnLane(s, k, lane), i, x), k, later), i, y) == AtSender(OnLane(s, k, later), i, y)
  {
    assert s.lanes[k := lane][k := later] == s.lanes[k := later];
    assert s.senders[i := x][i := y] == s.senders[i := y];
  }

  /**
    A send nobody interferes with enqueues its packet exactly when the lane's queue has
    room for its bytes and for one more packet; a refused one leaves no trace.
  */
  lemma SendAloneEnqueuesIffRoom(s: State, i: nat, k: LaneId, c: Class, p: Packet)
    requires Settled(s, i, k, c, p) && Carries(k, c) && !s.worker.Exited?
    ensures var maxBytes := match c { case Realtime => s.config.egressMaxBytesRealtime
                                      case Interactive => s.config.egressMaxBytesInteractive
                                      case _ => s.config.egressMaxBytesBulk };
            var maxPackets := match c { case Realtime => s.config.egressMaxPacketsRealtime
                                        case Interactive => s.config.egressMaxPacketsInteractive
                                        case _ => s.config.egressMaxPacketsBulk };
            var queue := s.lanes[k].queue;
            if Bytes(queue) + |p| > maxBytes then Continued(s, i, 2) == AtSender(s, i, Idle)
            else if |queue| + 1 > maxPackets then Continued(s, i, 5) == AtSender(s, i, Idle)
            else
              var t := Continued(s, i, 3);
              && t.senders[i] == Idle && t.lanes[k].queue == queue + [p]
              && t.lanes[k].gaugeBytes == Bytes(queue) + |p| && t.lanes[k].gaugePackets == |queue| + 1
              && t == s.(senders := t.senders, lanes := s.lanes[k := t.lanes[k]])
  {
    match Finds(s, k, p)
    case Enqueues => PostedAfterThree(s, i, k, c, p);
    case ByteLimit => ByteLimitUndone(s, i, k, c, p);
    case QueueFull => FullUndone(s, i, k, c, p);
  }

  /** A write is good exactly when the backend takes the whole packet; anything else is recorded as a write fault. */
  lemma WriteIsJudged(s: State, write: WriteAnswer, read: ReadAnswer)
    requires s.worker.Writing?
    ensures var t := Apply(s, Work(write, read));
            var whole := write == Wrote(|s.worker.packet|);
            && t.calls == s.calls + [WriteCall(s.pass, s.worker.lane, s.worker.packet, whole)]
            && (whole ==> t.worker == if s.worker.lane == 2 then TurnsDone else Turn(s.worker.lane + 1))
            && (!whole ==> t.worker == Failing(Failure(WriteFault,
                  if write.WriteError? then write.message
                  else if write.count == 0 then "backend wrote zero bytes"
                  else "backend partial write " + Decimal(write.count) + "/" + Decimal(|s.worker.packet|))))
  {
  }

  function Worked(s: State, p: Packet, n: nat): State {
    if n == 0 then s else Apply(Worked(s, p, n - 1), Work(Wrote(0), Read(p)))
  }

  /** The worker is about to read while the ingress gauges stand at their queue's contents. */
  predicate ReadyToRead(s: State) {
    && s.worker == Reading && !s.owner.Gone?
    && s.ingress.gaugeBytes == Bytes(s.ingress.queue) && s.ingress.gaugePackets == |s.ingress.queue|
  }

  /** What the counters of what has been read so far become with one packet more. */
  function WithFetched(q: Ingress, p: Packet): Ingress {
    q.(received := q.received + 1, fetched := q.fetched + [p])
  }

  /** An empty or oversize read is judged at once. */
  lemma ReadIsJudged(s: State, p: Packet)
    requires s.worker == Reading
    ensures var t := Worked(s, p, 1);
            && t.calls == s.calls + [ReadCall(p != [])]
            && (p == [] ==>
                  t.worker == Failing(Failure(ReadFault, "backend returned zero bytes")) && t.ingress == s.ingress)
            && (|p| > s.config.maxPacketBytes && p != [] ==>
                  && t.worker == Top
                  && t.ingress == WithFetched(s.ingress, p).(droppedOversize := s.ingress.droppedOversize + 1))
            && (1 <= |p| <= s.config.maxPacketBytes ==>
                  t.worker == Fetched(p) && t.ingress == WithFetched(s.ingress, p))
  {
  }

  /** The worker's next step with a packet it has read. */
  lemma WorkedOnce(s: State, p: Packet, n: nat, t: State)
    requires n > 0 && Worked(s, p, n - 1) == t
    ensures Worked(s, p, n) == StepWorker(t, Wrote(0), Read(p))
  {
  }

  lemma WorkedTwice(s: State, p: Packet, n: nat, t: State)
    requires n > 1 && Worked(s, p, n - 2) == t
    ensures Worked(s, p, n) == StepWorker(StepWorker(t, Wrote(0), Read(p)), Wrote(0), Read(p))
  {
    WorkedOnce(s, p, n - 1, t);
  }

  lemma WorkedThrice(s: State, p: Packet, n: nat, t: State)
    requires n > 2 && Worked(s, p, n - 3) == t
    ensures Worked(s, p, n)
            == StepWorker(StepWorker(StepWorker(t, Wrote(0), Read(p)), Wrote(0), Read(p)), Wrote(0), Read(p))
  {
    WorkedTwice(s, p, n - 1, t);
  }

  lemma TooManyBytesDropped(s: State, p: Packet, t: State)
    requires ReadyToRead(s) && Worked(s, p, 1) == t
    requires t.worker == Fetched(p) && t.config == s.config && t.ingress == WithFetched(s.ingress, p)
    requires Bytes(s.ingress.queue) + |p| > s.config.ingressMaxBytes
    ensures Worked(s, p, 3).worker == Top
    ensures Worked(s, p, 3).ingress == WithFetched(s.ingress, p).(droppedByte := s.ingress.droppedByte + 1)
  {
    WorkedOnce(s, p, 2, t);
    WorkedOnce(s, p, 3, Worked(s, p, 2));
  }

  lemma ReservedAfterThree(s: State, p: Packet, t: State)
    requires ReadyToRead(s) && Worked(s, p, 1) == t
    requires t.worker == Fetched(p) && (t.config, t.owner) == (s.config, s.owner)
    requires t.ingress == WithFetched(s.ingress, p)
    requires Bytes(s.ingress.queue) + |p| <= s.config.ingressMaxBytes
    ensures var q := t.ingress;
            Worked(s, p, 3) == t.(worker := InPosting(p), ingress := q.(gaugeBytes := q.gaugeBytes + |p|,
                                                                        gaugePackets := q.gaugePackets + 1))
  {
    WorkedOnce(s, p, 2, t);
    WorkedOnce(s, p, 3, Worked(s, p, 2));
  }

  /** From the enqueue attempt on, with room. */
  lemma PostsWithRoom(s: State, p: Packet)
    requires s.worker == InPosting(p) && !s.owner.Gone? && |s.ingress.queue| < s.config.ingressMaxPackets
    ensures var t, q := StepWorker(StepWorker(s, Wrote(0), Read(p)), Wrote(0), Read(p)), s.ingress;
            && t.worker == Top
            && t.ingress == q.(queue := q.queue + [p], accepted := q.accepted + [p], delivered := q.delivered + 1)
  {
  }

  /** From the enqueue attempt on, with the queue full. */
  lemma PostsInVain(s: State, p: Packet)
    requires s.worker == InPosting(p) && !s.owner.Gone? && |s.ingress.queue| >= s.config.ingressMaxPackets
    ensures var u := StepWorker(StepWorker(s, Wrote(0), Read(p)), Wrote(0), Read(p));
            var t, q := StepWorker(u, Wrote(0), Read(p)), s.ingress;
            && t.worker == Top
            && t.ingress == q.(gaugeBytes := q.gaugeBytes - |p|, gaugePackets := q.gaugePackets - 1,
                               droppedPacket := q.droppedPacket + 1)
  {
  }

  lemma DeliveredAfterFive(s: State, p: Packet, t: State)
    requires Worked(s, p, 3) == t && t.worker == InPosting(p) && !t.owner.Gone?
    requires |t.ingress.queue| < t.config.ingressMaxPackets
    ensures Worked(s, p, 5).worker == Top
    ensures Worked(s, p, 5).ingress
            == t.ingress.(queue := t.ingress.queue + [p], accepted := t.ingress.accepted + [p],
                          delivered := t.ingress.delivered + 1)
  {
    WorkedTwice(s, p, 5, t);
    PostsWithRoom(t, p);
  }

  lemma FullDroppedAfterSix(s: State, p: Packet, t: State)
    requires Worked(s, p, 3) == t && t.worker == InPosting(p) && !t.owner.Gone?
    requires |t.ingress.queue| >= t.config.ingressMaxPackets
    ensures Worked(s, p, 6).worker == Top
    ensures Worked(s, p, 6).ingress
            == t.ingress.(gaugeBytes := t.ingress.gaugeBytes - |p|, gaugePackets := t.ingress.gaugePackets - 1,
                          droppedPacket := t.ingress.droppedPacket + 1)
  {
    WorkedThrice(s, p, 6, t);
    PostsInVain(t, p);
  }

  /**
    A packet read while nobody interferes is delivered exactly when the ingress queue
    has room for its bytes and for one more packet; otherwise the one counter of that
    reason grows.
  */
  lemma ReadAloneDeliversIffRoom(s: State, p: Packet)
    requires ReadyToRead(s) && 1 <= |p| <= s.config.maxPacketBytes
    ensures var q := s.ingress;
            var read := WithFetched(q, p);
            if Bytes(q.queue) + |p| > s.config.ingressMaxBytes then
              Worked(s, p, 3).worker == Top && Worked(s, p, 3).ingress == read.(droppedByte := q.droppedByte + 1)
            else if |q.queue| + 1 > s.config.ingressMaxPackets then
              Worked(s, p, 6).worker == Top && Worked(s, p, 6).ingress == read.(droppedPacket := q.droppedPacket + 1)
            else
              && Worked(s, p, 5).worker == Top
              && Worked(s, p, 5).ingress
                 == read.(gaugeBytes := q.gaugeBytes + |p|, gaugePackets := q.gaugePackets + 1, queue := q.queue + [p],
                          accepted := q.accepted + [p], delivered := q.delivered + 1)
  {
    var t := Worked(s, p, 1);
    ReadIsJudged(s, p);
    ReadFrame(s, Read(p));
    WorkedOnce(s, p, 1, s);
    if Bytes(s.ingress.queue) + |p| > s.config.ingressMaxBytes {
      TooManyBytesDropped(s, p, t);
    } else {
      ReservedAfterThree(s, p, t);
      if |s.ingress.queue| + 1 > s.config.ingressMaxPackets {
        FullDroppedAfterSix(s, p, Worked(s, p, 3));
      } else {
        DeliveredAfterFive(s, p, Worked(s, p, 3));
      }
    }
  }

  // ---------------------------------------------------------------------
  // Egress order
  // ---------------------------------------------------------------------

  /** The packets of lane `k` handed to the backend, in order. */
  function Written(calls: seq<Call>, k: LaneId): seq<Packet> {
    if calls == [] then []
    else
      var last := calls[|calls| - 1];
      Written(calls[..|calls| - 1], k) + if last.WriteCall? && last.lane == k then [last.packet] else []
  }

  lemma WrittenSnoc(calls: seq<Call>, c: Call, k: LaneId)
    ensures Written(calls + [c], k) == Written(calls, k) + if c.WriteCall? && c.lane == k then [c.packet] else []
  {
    assert (calls + [c])[..|calls|] == calls;
  }

  /** The packet of lane `k` the worker has in hand. */
  function InHand(w: Worker, k: LaneId): seq<Packet> {
    if (w.Took? || w.Counted? || w.Writing?) && w.lane == k then [w.packet] else []
  }

  /** Everything enqueued is written, in hand, queued or discarded, in that order. */
  ghost predicate InOrder(s: State, k: LaneId) {
    var lane := s.lanes[k];
    && lane.enqueued == Written(s.calls, k) + InHand(s.worker, k) + lane.queue + lane.discarded
    && (if s.worker.Exited? then lane.queue == [] else lane.discarded == [])
  }

  lemma ExitKeepsOrder(s: State, k: LaneId)
    requires InOrder(s, k) && !s.worker.Exited? && InHand(s.worker, k) == []
    ensures InOrder(Exit(s), k)
  {
    assert Exit(s).lanes[k] == Discard(s.lanes[k]);
  }

  lemma TakingKeepsOrder(s: State, answer: WriteAnswer, k: LaneId)
    requires InOrder(s, k) && s.worker == Turn(k)
    ensures InOrder(StepEgress(s, answer), k)
  {
    var t := StepEgress(s, answer);
    if t.worker.Took? {
      var lane := s.lanes[k];
      var first: seq<Packet> := [lane.queue[0]];
      assert lane.queue == first + lane.queue[1..];
      assert t.lanes[k] == lane.(queue := lane.queue[1..]);
      assert InHand(s.worker, k) == [] && InHand(t.worker, k) == first;
    } else {
      assert t.lanes[k] == s.lanes[k];
    }
  }

  /** A write adds its call and leaves every lane alone, and the worker's hand is empty after it. */
  lemma WriteFrame(s: State, answer: WriteAnswer) returns (c: Call)
    requires s.worker.Writing?
    ensures c.WriteCall? && c.lane == s.worker.lane && c.packet == s.worker.packet
    ensures var t := StepEgress(s, answer);
            && t == s.(calls := s.calls + [c], worker := t.worker) && !t.worker.Exited?
            && forall k :: InHand(t.worker, k) == []
  {
    c := WriteCall(s.pass, s.worker.lane, s.worker.packet, WriteOutcome(s.worker.packet, answer).None?);
  }

  /** The packet in hand, if it is of this class, becomes the last one written. */
  lemma RecordingKeepsOrder(s: State, t: State, c: Call, k: LaneId)
    requires InOrder(s, k) && !s.worker.Exited? && !t.worker.Exited?
    requires t.lanes == s.lanes && t.calls == s.calls + [c] && c.WriteCall?
    requires InHand(s.worker, k) == (if c.lane == k then [c.packet] else []) && InHand(t.worker, k) == []
    ensures InOrder(t, k)
  {
    var before, hand := Written(s.calls, k), InHand(s.worker, k);
    WrittenSnoc(s.calls, c, k);
    assert Written(t.calls, k) == before + hand;
    assert (before + hand) + [] == before + hand;
  }

  lemma WritingKeepsOrder(s: State, answer: WriteAnswer, k: LaneId)
    requires InOrder(s, k) && s.worker.Writing?
    ensures InOrder(StepEgress(s, answer), k)
  {
    var c := WriteFrame(s, answer);
    RecordingKeepsOrder(s, StepEgress(s, answer), c, k);
  }

  lemma OtherTurnKeepsOrder(s: State, answer: WriteAnswer, k: LaneId)
    requires InOrder(s, k) && s.worker.Turn? && s.worker.lane != k
    ensures InOrder(StepEgress(s, answer), k)
  {
    UntouchedKeepsOrder(s, StepEgress(s, answer), k);
  }

  lemma GaugesKeepOrder(s: State, answer: WriteAnswer, k: LaneId)
    requires InOrder(s, k) && (s.worker.Took? || s.worker.Counted?)
    ensures InOrder(StepEgress(s, answer), k)
  {
    RefundKeepsOrder(s, StepEgress(s, answer), k);
  }

  lemma LoopKeepsOrder(s: State, answer: WriteAnswer, k: LaneId)
    requires InOrder(s, k) && (s.worker.Top? || s.worker.TurnsDone?)
    ensures InOrder(StepEgress(s, answer), k)
  {
    if Stopping(s) {
      ExitKeepsOrder(s, k);
    } else {
      UntouchedKeepsOrder(s, StepEgress(s, answer), k);
    }
  }

  lemma EgressKeepsOrder(s: State, answer: WriteAnswer, k: LaneId)
    requires InOrder(s, k) && InEgress(s.worker)
    ensures InOrder(StepEgress(s, answer), k)
  {
    if s.worker.Writing? {
      WritingKeepsOrder(s, answer, k);
    } else if s.worker == Turn(k) {
      TakingKeepsOrder(s, answer, k);
    } else if s.worker.Turn? {
      OtherTurnKeepsOrder(s, answer, k);
    } else if s.worker.Took? || s.worker.Counted? {
      GaugesKeepOrder(s, answer, k);
    } else {
      LoopKeepsOrder(s, answer, k);
    }
  }

  /** Gauges have no part in the order. */
  lemma RefundKeepsOrder(s: State, t: State, k: LaneId)
    requires InOrder(s, k) && t.calls == s.calls && t.worker.Exited? == s.worker.Exited?
    requires InHand(t.worker, k) == InHand(s.worker, k)
    requires t.lanes[k].queue == s.lanes[k].queue && t.lanes[k].enqueued == s.lanes[k].enqueued
    requires t.lanes[k].discarded == s.lanes[k].discarded
    ensures InOrder(t, k)
  {
  }

  lemma SenderKeepsOrder(s: State, i: nat, k: LaneId)
    requires i < |s.senders| && InOrder(s, k)
    ensures InOrder(StepSender(s, i), k)
  {
    var t := StepSender(s, i);
    var x := s.senders[i];
    if x.Posting? && x.lane == k && t.lanes[k] != s.lanes[k] {
      var posted: seq<Packet> := [x.packet];
      assert t.lanes[k].queue == s.lanes[k].queue + posted && t.lanes[k].enqueued == s.lanes[k].enqueued + posted;
    } else {
      RefundKeepsOrder(s, t, k);
    }
  }

  lemma UntouchedKeepsOrder(s: State, t: State, k: LaneId)
    requires InOrder(s, k) && t.lanes[k] == s.lanes[k] && t.worker.Exited? == s.worker.Exited?
    requires Written(t.calls, k) == Written(s.calls, k) && InHand(t.worker, k) == InHand(s.worker, k)
    ensures InOrder(t, k)
  {
  }

  lemma FaultKeepsOrder(s: State, k: LaneId)
    requires InOrder(s, k) && (s.worker.Failing? || s.worker.Publishing?)
    ensures InOrder(StepFault(s), k)
  {
    var t := StepFault(s);
    if t.worker.Exited? {
      ExitKeepsOrder(s.(flags := t.flags), k);
    } else {
      UntouchedKeepsOrder(s, t, k);
    }
  }

  /** A read adds one read call and moves only the worker and the ingress counts. */
  lemma ReadFrame(s: State, read: ReadAnswer)
    ensures var t := StepRead(s, read);
            && t == s.(worker := t.worker, ingress := t.ingress, calls := s.calls + [ReadCall(!t.worker.Failing?)])
            && (t.worker.Top? || t.worker.Fetched? || t.worker.Failing?)
  {
  }

  lemma ReadKeepsOrder(s: State, read: ReadAnswer, k: LaneId)
    requires InOrder(s, k) && s.worker.Reading?
    ensures InOrder(StepRead(s, read), k)
  {
    var t := StepRead(s, read);
    ReadFrame(s, read);
    WrittenSnoc(s.calls, ReadCall(!t.worker.Failing?), k);
    UntouchedKeepsOrder(s, t, k);
  }

  lemma PlacingKeepsOrder(s: State, k: LaneId)
    requires InOrder(s, k) && Undecided(s.worker) == 1
    ensures InOrder(StepIngress(s), k)
  {
    var t := StepIngress(s);
    if t.worker.Exited? {
      ExitKeepsOrder(s.(ingress := t.ingress), k);
    } else {
      UntouchedKeepsOrder(s, t, k);
    }
  }

  lemma WorkKeepsOrder(s: State, write: WriteAnswer, read: ReadAnswer, k: LaneId)
    requires InOrder(s, k)
    ensures InOrder(StepWorker(s, write, read), k)
  {
    if InEgress(s.worker) {
      EgressKeepsOrder(s, write, k);
    } else if s.worker.Reading? {
      ReadKeepsOrder(s, read, k);
    } else if s.worker.Failing? || s.worker.Publishing? {
      FaultKeepsOrder(s, k);
    } else if !s.worker.Exited? {
      PlacingKeepsOrder(s, k);
    }
  }

  lemma StepKeepsOrder(s: State, a: Action, k: LaneId)
    requires InOrder(s, k)
    ensures InOrder(Apply(s, a), k)
  {
    if a.Continue? {
      if a.sender < |s.senders| {
        SenderKeepsOrder(s, a.sender, k);
      }
    } else if a.Work? {
      WorkKeepsOrder(s, a.write, a.read, k);
    } else {
      OthersLeaveWorkerAlone(s, a);
      UntouchedKeepsOrder(s, Apply(s, a), k);
    }
  }

  lemma {:induction false} ReachableIsInOrder(config: Config, actions: seq<Action>, k: LaneId)
    ensures InOrder(Run(Start(config), actions), k)
  {
    if actions != [] {
      ReachableIsInOrder(config, actions[..|actions| - 1], k);
      StepKeepsOrder(Run(Start(config), actions[..|actions| - 1]), actions[|actions| - 1], k);
    }
  }

  /** Each class leaves in the order it was enqueued. */
  lemma ClassesLeaveInOrder(config: Config, actions: seq<Action>, k: LaneId)
    ensures var s := Run(Start(config), actions);
            Written(s.calls, k) <= s.lanes[k].enqueued
  {
    ReachableIsInOrder(config, actions, k);
  }

  // ---------------------------------------------------------------------
  // Classes and lanes
  // ---------------------------------------------------------------------

  /** Some call to `send` asked for this packet in this class. */
  ghost predicate Begun(actions: seq<Action>, c: Class, p: Packet) {
    exists m :: 0 <= m < |actions| && actions[m].Begin? && actions[m].class_ == c && actions[m].packet == p
  }

  ghost predicate SenderSorted(x: Sender, actions: seq<Action>) {
    !x.Idle? ==> Carries(x.lane, x.class_) && Begun(actions, x.class_, x.packet)
  }

  ghost predicate LaneSorted(k: LaneId, lane: Lane, actions: seq<Action>) {
    && |lane.sentAs| == |lane.enqueued|
    && forall n :: 0 <= n < |lane.sentAs| ==>
         Carries(k, lane.sentAs[n]) && Begun(actions, lane.sentAs[n], lane.enqueued[n])
  }

  /** Every packet inside `send` and every packet ever enqueued is on the lane of the class it was begun with. */
  ghost predicate Sorted(s: State, actions: seq<Action>) {
    && (forall i :: 0 <= i < |s.senders| ==> SenderSorted(s.senders[i], actions))
    && (forall k: LaneId :: LaneSorted(k, s.lanes[k], actions))
  }

  lemma BegunStays(actions: seq<Action>, a: Action, c: Class, p: Packet)
    requires Begun(actions, c, p)
    ensures Begun(actions + [a], c, p)
  {
    var m :| 0 <= m < |actions| && actions[m].Begin? && actions[m].class_ == c && actions[m].packet == p;
    assert (actions + [a])[m] == actions[m];
  }

  lemma MoreActionsKeepSorted(s: State, actions: seq<Action>, a: Action)
    requires Sorted(s, actions)
    ensures Sorted(s, actions + [a])
  {
    forall i | 0 <= i < |s.senders| ensures SenderSorted(s.senders[i], actions + [a]) {
      assert SenderSorted(s.senders[i], actions);
      if !s.senders[i].Idle? {
        BegunStays(actions, a, s.senders[i].class_, s.senders[i].packet);
      }
    }
    forall k: LaneId ensures LaneSorted(k, s.lanes[k], actions + [a]) {
      var lane := s.lanes[k];
      assert LaneSorted(k, lane, actions);
      forall n | 0 <= n < |lane.sentAs| ensures Begun(actions + [a], lane.sentAs[n], lane.enqueued[n]) {
        BegunStays(actions, a, lane.sentAs[n], lane.enqueued[n]);
      }
    }
  }

  /** A lane with the same packets, or one more that a sorted sender was posting, stays sorted. */
  lemma PostingKeepsSorted(k: LaneId, lane: Lane, x: Sender, maxPackets: nat, closed: bool, actions: seq<Action>)
    requires LaneSorted(k, lane, actions) && SenderSorted(x, actions) && !x.Idle? && x.lane == k
    ensures LaneSorted(k, LaneAfter(lane, x, maxPackets, closed), actions)
  {
  }

  lemma SenderKeepsSorted(s: State, i: nat, actions: seq<Action>)
    requires Sorted(s, actions) && i < |s.senders|
    ensures Sorted(StepSender(s, i), actions)
  {
    var x := s.senders[i];
    var t := StepSender(s, i);
    assert SenderSorted(x, actions);
    if !x.Idle? {
      forall k: LaneId ensures LaneSorted(k, t.lanes[k], actions) {
        assert LaneSorted(k, s.lanes[k], actions);
        if k == x.lane {
          PostingKeepsSorted(k, s.lanes[k], x, s.config.EgressMaxPackets(k), s.worker.Exited?, actions);
        }
      }
      forall j | 0 <= j < |t.senders| ensures SenderSorted(t.senders[j], actions) {
        assert SenderSorted(s.senders[j], actions);
      }
    }
  }

  lemma BeginKeepsSorted(s: State, i: nat, c: Class, p: Packet, actions: seq<Action>)
    requires Sorted(s, actions) && actions != [] && actions[|actions| - 1] == Begin(i, c, p)
    ensures Sorted(Apply(s, Begin(i, c, p)), actions)
  {
    var t := Apply(s, Begin(i, c, p));
    assert Begun(actions, c, p);
    forall j | 0 <= j < |t.senders| ensures SenderSorted(t.senders[j], actions) {
      assert SenderSorted(s.senders[j], actions);
    }
  }

  /** No other step touches a sender or what has been enqueued. */
  lemma OthersLeaveEnqueuedAlone(s: State, a: Action, k: LaneId)
    requires !a.Begin? && !a.Continue?
    ensures var t := Apply(s, a);
            && (forall i :: 0 <= i < |t.senders| ==>
                  t.senders[i] == Idle || (i < |s.senders| && t.senders[i] == s.senders[i]))
            && t.lanes[k].enqueued == s.lanes[k].enqueued && t.lanes[k].sentAs == s.lanes[k].sentAs
  {
    match a
    case Work(write, read) =>
      if InEgress(s.worker) {
        EgressLeavesEnqueuedAlone(s, write, k);
      }
    case _ =>
  }

  lemma EgressLeavesEnqueuedAlone(s: State, answer: WriteAnswer, k: LaneId)
    ensures var t := StepEgress(s, answer);
            && t.senders == s.senders
            && t.lanes[k].enqueued == s.lanes[k].enqueued && t.lanes[k].sentAs == s.lanes[k].sentAs
  {
  }

  lemma StepKeepsSorted(s: State, a: Action, actions: seq<Action>)
    requires Sorted(s, actions) && actions != [] && actions[|actions| - 1] == a
    ensures Sorted(Apply(s, a), actions)
  {
    match a
    case Begin(i, c, p) => BeginKeepsSorted(s, i, c, p, actions);
    case Continue(i) =>
      if i < |s.senders| {
        SenderKeepsSorted(s, i, actions);
      }
    case _ =>
      forall k: LaneId ensures LaneSorted(k, Apply(s, a).lanes[k], actions) {
        OthersLeaveEnqueuedAlone(s, a, k);
        assert LaneSorted(k, s.lanes[k], actions);
      }
      OthersLeaveEnqueuedAlone(s, a, 0);
  }

  lemma {:induction false} ReachableIsSorted(config: Config, actions: seq<Action>)
    ensures Sorted(Run(Start(config), actions), actions)
  {
    if actions != [] {
      var before, last := actions[..|actions| - 1], actions[|actions| - 1];
      assert actions == before + [last];
      ReachableIsSorted(config, before);
      MoreActionsKeepSorted(Run(Start(config), before), before, last);
      StepKeepsSorted(Run(Start(config), before), last, actions);
    }
  }

  /**
    In every run the lane drained first holds exactly packets sent as realtime, the
    second interactive and the third bulk: each enqueued packet was begun by a `send`
    of that very class.
  */
  lemma ClassesKeepToTheirLanes(config: Config, actions: seq<Action>)
    ensures var lanes := Run(Start(config), actions).lanes;
            && (forall k: LaneId :: |lanes[k].sentAs| == |lanes[k].enqueued|)
            && (forall n :: 0 <= n < |lanes[0].enqueued| ==>
                  lanes[0].sentAs[n] == Realtime && Begun(actions, Realtime, lanes[0].enqueued[n]))
            && (forall n :: 0 <= n < |lanes[1].enqueued| ==>
                  lanes[1].sentAs[n] == Interactive && Begun(actions, Interactive, lanes[1].enqueued[n]))
            && (forall n :: 0 <= n < |lanes[2].enqueued| ==>
                  lanes[2].sentAs[n] == Bulk && Begun(actions, Bulk, lanes[2].enqueued[n]))
  {
    var lanes := Run(Start(config), actions).lanes;
    ReachableIsSorted(config, actions);
    assert forall k: LaneId :: LaneSorted(k, lanes[k], actions);
  }

  // ---------------------------------------------------------------------
  // The drain schedule
  // ---------------------------------------------------------------------

  /** Which class the worker is at, 3 when past the class loop. */
  function TurnIndex(w: Worker): nat {
    if w.Turn? || w.Took? || w.Counted? || w.Writing? then w.lane else 3
  }

  /** `c` is a write before turn (`pass`, `turn`). */
  predicate Before(c: Call, pass: nat, turn: nat) {
    c.WriteCall? ==> c.pass < pass || (c.pass == pass && c.lane < turn)
  }

  /** Writes are in strict order of pass, then class: one packet per class and pass at most. */
  ghost predicate Scheduled(s: State) {
    && (forall i :: 0 <= i < |s.calls| ==> Before(s.calls[i], s.pass, TurnIndex(s.worker)))
    && (forall i, j :: 0 <= i < j < |s.calls| && s.calls[j].WriteCall? ==>
          Before(s.calls[i], s.calls[j].pass, s.calls[j].lane))
  }

  /** A step of the worker that calls no backend does not go back in the schedule. */
  ghost predicate Forward(s: State, t: State) {
    && t.calls == s.calls
    && ((t.pass == s.pass && TurnIndex(t.worker) >= TurnIndex(s.worker)) || t.pass == s.pass + 1)
  }

  lemma ForwardKeepsScheduled(s: State, t: State)
    requires Scheduled(s) && Forward(s, t)
    ensures Scheduled(t)
  {
  }

  lemma WriteKeepsScheduled(s: State, answer: WriteAnswer)
    requires Scheduled(s) && s.worker.Writing?
    ensures Scheduled(StepEgress(s, answer))
  {
    var t := StepEgress(s, answer);
    assert forall i :: 0 <= i < |s.calls| ==> t.calls[i] == s.calls[i];
  }

  lemma ReadKeepsScheduled(s: State, read: ReadAnswer)
    requires Scheduled(s) && s.worker.Reading?
    ensures Scheduled(StepRead(s, read))
  {
    var t := StepRead(s, read);
    assert forall i :: 0 <= i < |s.calls| ==> t.calls[i] == s.calls[i];
  }

  lemma WorkKeepsScheduled(s: State, write: WriteAnswer, read: ReadAnswer)
    requires Scheduled(s)
    ensures Scheduled(StepWorker(s, write, read))
  {
    if s.worker.Writing? {
      WriteKeepsScheduled(s, write);
    } else if s.worker.Reading? {
      ReadKeepsScheduled(s, read);
    } else if InEgress(s.worker) {
      ForwardKeepsScheduled(s, StepEgress(s, write));
    } else if s.worker.Failing? || s.worker.Publishing? {
      ForwardKeepsScheduled(s, StepFault(s));
    } else if !s.worker.Exited? {
      ForwardKeepsScheduled(s, StepIngress(s));
    }
  }

  /** Only the worker's own steps touch its place, its pass and the backend. */
  lemma OthersLeaveWorkerAlone(s: State, a: Action)
    requires !a.Work?
    ensures var t := Apply(s, a);
            t.worker == s.worker && t.pass == s.pass && t.calls == s.calls && t.config == s.config
    ensures !a.Own? ==> Apply(s, a).ingress == s.ingress && Apply(s, a).owner == s.owner
    ensures !a.Own? ==> Apply(s, a).flags.failure == s.flags.failure && Apply(s, a).flags.terminal == s.flags.terminal
  {
    if a.Own? {
      OwnerLeavesWorkerAlone(s, a.command);
    }
  }

  lemma OwnerLeavesWorkerAlone(s: State, c: OwnerCommand)
    ensures var t := StepOwner(s, c);
            t == s.(ingress := t.ingress, owner := t.owner, flags := t.flags)
    ensures s.flags.failure.Some? ==> StepOwner(s, c).flags.failure == s.flags.failure
    ensures s.flags.shutdown ==> StepOwner(s, c).flags.shutdown
  {
  }

  lemma StepKeepsScheduled(s: State, a: Action)
    requires Scheduled(s)
    ensures Scheduled(Apply(s, a))
  {
    if a.Work? {
      WorkKeepsScheduled(s, a.write, a.read);
    } else {
      OthersLeaveWorkerAlone(s, a);
      ForwardKeepsScheduled(s, Apply(s, a));
    }
  }

  /**
    In every run the backend sees writes in strict order of pass and, within a pass,
    of class: realtime, interactive, bulk, at most one of each.
  */
  lemma {:induction false} WritesFollowSchedule(config: Config, actions: seq<Action>)
    ensures Scheduled(Run(Start(config), actions))
  {
    if actions != [] {
      WritesFollowSchedule(config, actions[..|actions| - 1]);
      StepKeepsScheduled(Run(Start(config), actions[..|actions| - 1]), actions[|actions| - 1]);
    }
  }

  /** How many packets of its lane were written before call `i`. */
  function Position(calls: seq<Call>, i: nat): nat
    requires i < |calls| && calls[i].WriteCall?
  {
    |Written(calls[..i], calls[i].lane)|
  }

  lemma {:induction false} PositionHolds(calls: seq<Call>, i: nat)
    requires i < |calls| && calls[i].WriteCall?
    ensures Position(calls, i) < |Written(calls, calls[i].lane)|
    ensures Written(calls, calls[i].lane)[Position(calls, i)] == calls[i].packet
  {
    var before := calls[..|calls| - 1];
    if i < |before| {
      assert before[..i] == calls[..i];
      PositionHolds(before, i);
    }
  }

  /** Call `i` of the run wrote a packet that was sent as class `c`. */
  ghost predicate WroteAs(s: State, i: nat, c: Class)
    requires i < |s.calls| && s.calls[i].WriteCall?
  {
    var lane, n := s.lanes[s.calls[i].lane], Position(s.calls, i);
    n < |lane.enqueued| && n < |lane.sentAs| && lane.enqueued[n] == s.calls[i].packet && lane.sentAs[n] == c
  }

  /** Every packet written was sent as one of the three data classes. */
  lemma WritesHaveClasses(config: Config, actions: seq<Action>, i: nat)
    requires var s := Run(Start(config), actions); i < |s.calls| && s.calls[i].WriteCall?
    ensures var s := Run(Start(config), actions);
            match s.calls[i].lane
            case 0 => WroteAs(s, i, Realtime)
            case 1 => WroteAs(s, i, Interactive)
            case _ => WroteAs(s, i, Bulk)
  {
    var s := Run(Start(config), actions);
    ClassesLeaveInOrder(config, actions, s.calls[i].lane);
    ClassesKeepToTheirLanes(config, actions);
    WriteHasClass(s, i);
  }

  lemma WriteHasClass(s: State, i: nat)
    requires i < |s.calls| && s.calls[i].WriteCall?
    requires Written(s.calls, s.calls[i].lane) <= s.lanes[s.calls[i].lane].enqueued
    requires forall k: LaneId :: |s.lanes[k].sentAs| == |s.lanes[k].enqueued|
    requires forall n :: 0 <= n < |s.lanes[0].enqueued| ==> s.lanes[0].sentAs[n] == Realtime
    requires forall n :: 0 <= n < |s.lanes[1].enqueued| ==> s.lanes[1].sentAs[n] == Interactive
    requires forall n :: 0 <= n < |s.lanes[2].enqueued| ==> s.lanes[2].sentAs[n] == Bulk
    ensures match s.calls[i].lane
            case 0 => WroteAs(s, i, Realtime)
            case 1 => WroteAs(s, i, Interactive)
            case _ => WroteAs(s, i, Bulk)
  {
    PositionHolds(s.calls, i);
  }

  /**
    In every run, of two packets written in one pass the earlier was sent as realtime
    and the later as interactive or bulk, or as interactive and as bulk.
  */
  lemma PassesFavourRealtime(config: Config, actions: seq<Action>, i: nat, j: nat)
    requires var s := Run(Start(config), actions);
             && i < j < |s.calls| && s.calls[i].WriteCall? && s.calls[j].WriteCall?
             && s.calls[i].pass == s.calls[j].pass
    ensures var s := Run(Start(config), actions);
            || (WroteAs(s, i, Realtime) && (WroteAs(s, j, Interactive) || WroteAs(s, j, Bulk)))
            || (WroteAs(s, i, Interactive) && WroteAs(s, j, Bulk))
  {
    WritesFollowSchedule(config, actions);
    WritesHaveClasses(config, actions, i);
    WritesHaveClasses(config, actions, j);
    var s := Run(Start(config), actions);
    assert Before(s.calls[i], s.calls[j].pass, s.calls[j].lane);
  }

  /** How many turns class `k` has had. */
  function TurnsTaken(s: State, k: LaneId): int {
    if TurnIndex(s.worker) <= k then s.pass - 1 else s.pass
  }

  function Least(a: int, b: int): int {
    if a < b then a else b
  }

  /** Nothing has stopped or failed so far. */
  predicate Serving(s: State) {
    !Stopping(s) && !s.worker.Exited? && !s.worker.Failing?
  }

  /** Since `s0`, every turn of class `k` wrote one packet unless all that was there then is written. */
  ghost predicate Served(s0: State, s: State, k: LaneId) {
    && Extends(s0.lanes[k], s.lanes[k])
    && (Serving(s) ==>
          |Written(s.calls, k)| >=
          Least(|Written(s0.calls, k)| + TurnsTaken(s, k) - TurnsTaken(s0, k), |s0.lanes[k].enqueued|))
  }

  /** `later` still has everything that was ever enqueued on a lane, in place. */
  predicate Extends(earlier: Lane, later: Lane) {
    earlier.enqueued <= later.enqueued
  }

  lemma SenderExtends(s: State, i: nat, k: LaneId)
    requires i < |s.senders|
    ensures Extends(s.lanes[k], StepSender(s, i).lanes[k])
  {
    var x := s.senders[i];
    if !x.Idle? && x.lane != k {
      assert StepSender(s, i).lanes[k] == s.lanes[k];
    }
  }

  lemma WorkerExtends(s: State, write: WriteAnswer, read: ReadAnswer, k: LaneId)
    ensures Extends(s.lanes[k], StepWorker(s, write, read).lanes[k])
  {
    if InEgress(s.worker) {
      EgressExtends(s, write, k);
    }
  }

  lemma EgressExtends(s: State, answer: WriteAnswer, k: LaneId)
    ensures Extends(s.lanes[k], StepEgress(s, answer).lanes[k])
  {
  }

  lemma StepExtends(s: State, a: Action, k: LaneId)
    ensures Extends(s.lanes[k], Apply(s, a).lanes[k])
  {
    match a
    case Continue(i) => if i < |s.senders| { SenderExtends(s, i, k); }
    case Work(write, read) => WorkerExtends(s, write, read, k);
    case _ =>
  }

  lemma StopIsForGood(s: State, a: Action)
    ensures Serving(Apply(s, a)) ==> Serving(s)
  {
    if a.Own? {
      OwnerLeavesWorkerAlone(s, a.command);
    } else if a.Continue? {
      OthersLeaveWorkerAlone(s, a);
    }
  }

  /** What a step may do to the turns and writes of class `k`, while nothing stops. */
  ghost predicate TurnMoves(s: State, t: State, k: LaneId) {
    || (TurnsTaken(t, k) == TurnsTaken(s, k) && |Written(t.calls, k)| == |Written(s.calls, k)|)
    || (TurnsTaken(t, k) == TurnsTaken(s, k) + 1 && |Written(t.calls, k)| == |Written(s.calls, k)| + 1)
    || (TurnsTaken(t, k) == TurnsTaken(s, k) + 1 && t.calls == s.calls && s.worker == Turn(k) && s.lanes[k].queue == [])
  }

  lemma WritingTurns(s: State, answer: WriteAnswer, k: LaneId)
    requires s.worker.Writing? && !StepEgress(s, answer).worker.Failing?
    ensures TurnMoves(s, StepEgress(s, answer), k)
  {
    var t := StepEgress(s, answer);
    WrittenSnoc(s.calls, t.calls[|s.calls|], k);
    assert t.calls == s.calls + [t.calls[|s.calls|]];
  }

  lemma EgressTurns(s: State, answer: WriteAnswer, k: LaneId)
    requires InEgress(s.worker) && !s.worker.Writing? && !Stopping(s)
    ensures TurnMoves(s, StepEgress(s, answer), k)
  {
    assert StepEgress(s, answer).calls == s.calls;
  }

  lemma ReadingTurns(s: State, read: ReadAnswer, k: LaneId)
    requires s.worker.Reading?
    ensures TurnMoves(s, StepRead(s, read), k)
  {
    ReadFrame(s, read);
    WrittenSnoc(s.calls, ReadCall(!StepRead(s, read).worker.Failing?), k);
  }

  lemma PlacingTurns(s: State, k: LaneId)
    requires Undecided(s.worker) == 1
    ensures TurnMoves(s, StepIngress(s), k)
  {
  }

  /** A turn of class `k` ends with one packet written, or with nothing queued. */
  lemma TurnsOnlyEndAtTurns(s: State, a: Action, k: LaneId)
    requires Serving(s) && Serving(Apply(s, a))
    ensures TurnMoves(s, Apply(s, a), k)
  {
    if a.Work? {
      if s.worker.Writing? {
        WritingTurns(s, a.write, k);
      } else if InEgress(s.worker) {
        EgressTurns(s, a.write, k);
      } else if s.worker.Reading? {
        ReadingTurns(s, a.read, k);
      } else if !s.worker.Publishing? {
        PlacingTurns(s, k);
      }
    } else {
      OthersLeaveWorkerAlone(s, a);
    }
  }

  lemma StepKeepsServed(s0: State, s: State, a: Action, k: LaneId)
    requires Served(s0, s, k) && InOrder(s, k)
    ensures Served(s0, Apply(s, a), k)
  {
    var t := Apply(s, a);
    StepExtends(s, a, k);
    if Serving(t) {
      StopIsForGood(s, a);
      TurnsOnlyEndAtTurns(s, a, k);
      if s.worker == Turn(k) && s.lanes[k].queue == [] {
        assert |s.lanes[k].enqueued| == |Written(s.calls, k)|;
      }
    }
  }

  lemma {:induction false} RunKeepsServed(s0: State, actions: seq<Action>, k: LaneId)
    requires InOrder(s0, k)
    ensures Served(s0, Run(s0, actions), k) && InOrder(Run(s0, actions), k)
  {
    if actions != [] {
      var s := Run(s0, actions[..|actions| - 1]);
      RunKeepsServed(s0, actions[..|actions| - 1], k);
      StepKeepsServed(s0, s, actions[|actions| - 1], k);
      StepKeepsOrder(s, actions[|actions| - 1], k);
    }
  }

  /**
    Absent fault and shutdown, a packet with `ahead` packets of its class still before
    it has been handed to the backend once the worker has completed `ahead` + 1 passes.
  */
  lemma WrittenWithinPasses(config: Config, earlier: seq<Action>, later: seq<Action>, k: LaneId, ahead: nat)
    requires var s0 := Run(Start(config), earlier);
             var s := Run(s0, later);
             && s0.worker == Top && s.worker == Top && !Stopping(s)
             && |Written(s0.calls, k)| + ahead < |s0.lanes[k].enqueued|
             && s.pass >= s0.pass + ahead + 1
    ensures var s0 := Run(Start(config), earlier);
            var s := Run(s0, later);
            var index := |Written(s0.calls, k)| + ahead;
            index < |Written(s.calls, k)| && Written(s.calls, k)[index] == s0.lanes[k].enqueued[index]
  {
    var s0 := Run(Start(config), earlier);
    ReachableIsInOrder(config, earlier, k);
    RunKeepsServed(s0, later, k);
  }

  // ---------------------------------------------------------------------
  // Stopping
  // ---------------------------------------------------------------------

  /** The worker is committed to one more backend call. */
  predicate Committed(w: Worker) {
    w.Took? || w.Counted? || w.Writing? || w.Reading?
  }

  function CallsLeft(s: State): nat {
    |s.calls| + if Committed(s.worker) then 1 else 0
  }

  lemma WorkAfterStop(s: State, write: WriteAnswer, read: ReadAnswer)
    requires s.flags.shutdown || s.flags.failure.Some?
    ensures CallsLeft(StepWorker(s, write, read)) <= CallsLeft(s)
  {
    if s.worker.Reading? {
      ReadFrame(s, read);
    }
  }

  /** Once shut down or failed, the worker calls the backend at most once more, whatever the others do. */
  lemma {:induction false} AtMostOneCallAfterStop(s: State, later: seq<Action>)
    requires s.flags.shutdown || s.flags.failure.Some?
    ensures |Run(s, later).calls| <= CallsLeft(Run(s, later)) <= CallsLeft(s) <= |s.calls| + 1
    ensures Stopping(Run(s, later))
  {
    SplitStopTestIsAtomic(s, later);
    if later != [] {
      var before, last := later[..|later| - 1], later[|later| - 1];
      AtMostOneCallAfterStop(s, before);
      if last.Work? {
        WorkAfterStop(Run(s, before), last.write, last.read);
      } else {
        OthersLeaveWorkerAlone(Run(s, before), last);
      }
    }
  }

  /** A stopped worker that stands at a loop head or past the class loop closes every queue and is gone. */
  lemma StoppedWorkerExits(s: State, write: WriteAnswer, read: ReadAnswer)
    requires s.flags.shutdown || s.flags.failure.Some?
    ensures var t := Apply(s, Work(write, read));
            && (s.worker.Top? || s.worker.TurnsDone? ==>
                  && t.worker.Exited?
                  && forall k: LaneId :: t.lanes[k].queue == [] && t.lanes[k].discarded == s.lanes[k].queue)
            && (s.worker.Turn? ==> t.worker.TurnsDone? && t.lanes == s.lanes)
  {
  }

  /** The owner is given the front of the ingress queue, unless a failure is recorded or nothing is queued. */
  lemma ReceiveTakesFront(s: State)
    requires s.owner == Open
    ensures var t := Apply(s, Own(Receive));
            if s.flags.failure.None? && s.ingress.queue != [] then
              && t.ingress.taken == s.ingress.taken + [s.ingress.queue[0]]
              && t.ingress.queue == s.ingress.queue[1..]
            else t == s
  {
  }

  // ---------------------------------------------------------------------
  // Faults
  // ---------------------------------------------------------------------

  lemma StepKeepsFailure(s: State, a: Action)
    requires s.flags.failure.Some?
    ensures Apply(s, a).flags.failure == s.flags.failure
  {
    if a.Own? {
      OwnerLeavesWorkerAlone(s, a.command);
    } else if !a.Work? {
      OthersLeaveWorkerAlone(s, a);
    }
  }

  /** The first recorded failure never changes, through any further steps. */
  lemma {:induction false} FirstFailureIsKept(s: State, actions: seq<Action>)
    requires s.flags.failure.Some?
    ensures Run(s, actions).flags.failure == s.flags.failure
  {
    if actions != [] {
      FirstFailureIsKept(s, actions[..|actions| - 1]);
      StepKeepsFailure(Run(s, actions[..|actions| - 1]), actions[|actions| - 1]);
    }
  }

  lemma {:induction false} ShutdownStays(s: State, actions: seq<Action>)
    requires s.flags.shutdown
    ensures Run(s, actions).flags.shutdown
  {
    if actions != [] {
      ShutdownStays(s, actions[..|actions| - 1]);
    }
  }

  /**
    Reading the shutdown flag and, any steps later, the failure cell gives what
    reading both at once would have given at one of the two moments.
  */
  lemma SplitStopTestIsAtomic(s: State, actions: seq<Action>)
    ensures var t := Run(s, actions);
            var split := s.flags.shutdown || t.flags.failure.Some?;
            split == Stopping(s) || split == Stopping(t)
    ensures Stopping(s) ==> Stopping(Run(s, actions))
  {
    if s.flags.failure.Some? {
      FirstFailureIsKept(s, actions);
    }
    if s.flags.shutdown {
      ShutdownStays(s, actions);
    }
  }

  /** The terminal signal is up exactly when a failure is recorded and nobody is still about to raise it. */
  ghost predicate Signalled(s: State) {
    && (s.flags.terminal || s.worker.Publishing? || s.owner.DropPublishing? <==> s.flags.failure.Some?)
    && !(s.worker.Publishing? && s.owner.DropPublishing?)
    && (s.flags.terminal ==> !s.worker.Publishing? && !s.owner.DropPublishing?)
  }

  lemma UntouchedKeepsSignalled(s: State, t: State)
    requires Signalled(s) && t.owner == s.owner
    requires t.flags.failure == s.flags.failure && t.flags.terminal == s.flags.terminal
    requires t.worker.Publishing? == s.worker.Publishing?
    ensures Signalled(t)
  {
  }

  lemma WorkKeepsSignalled(s: State, write: WriteAnswer, read: ReadAnswer)
    requires Signalled(s)
    ensures Signalled(StepWorker(s, write, read))
  {
    if s.worker.Reading? {
      UntouchedKeepsSignalled(s, StepRead(s, read));
    } else if InEgress(s.worker) {
      UntouchedKeepsSignalled(s, StepEgress(s, write));
    } else if Undecided(s.worker) == 1 {
      UntouchedKeepsSignalled(s, StepIngress(s));
    }
  }

  lemma OwnerKeepsSignalled(s: State, c: OwnerCommand)
    requires Signalled(s)
    ensures Signalled(StepOwner(s, c))
  {
  }

  lemma {:induction false} TerminalMeansFailure(config: Config, actions: seq<Action>)
    ensures Signalled(Run(Start(config), actions))
  {
    if actions != [] {
      TerminalMeansFailure(config, actions[..|actions| - 1]);
      var s, a := Run(Start(config), actions[..|actions| - 1]), actions[|actions| - 1];
      if a.Work? {
        WorkKeepsSignalled(s, a.write, a.read);
      } else if a.Own? {
        OwnerKeepsSignalled(s, a.command);
      } else {
        OthersLeaveWorkerAlone(s, a);
        UntouchedKeepsSignalled(s, Apply(s, a));
      }
    }
  }

  /** A faulty call is the last one, and from it the worker can only leave. */
  ghost predicate FaultIsFinal(s: State) {
    && (forall i :: 0 <= i < |s.calls| - 1 ==> s.calls[i].ok)
    && (s.calls == [] || s.calls[|s.calls| - 1].ok || s.worker.Failing? || s.worker.Publishing? || s.worker.Exited?
        || (s.worker.TurnsDone? && s.flags.failure.Some?))
    && (s.worker.Publishing? ==> s.flags.failure.Some?)
  }

  lemma CallingKeepsFaultFinal(s: State, t: State)
    requires FaultIsFinal(s) && (s.worker.Writing? || s.worker.Reading?)
    requires |t.calls| == |s.calls| + 1 && t.calls[..|s.calls|] == s.calls
    requires t.calls[|s.calls|].ok || t.worker.Failing?
    requires !t.worker.Publishing?
    ensures FaultIsFinal(t)
  {
    assert forall i :: 0 <= i < |s.calls| ==> t.calls[i] == s.calls[i];
  }

  lemma QuietKeepsFaultFinal(s: State, write: WriteAnswer)
    requires FaultIsFinal(s) && !s.worker.Reading? && !s.worker.Writing?
    ensures FaultIsFinal(StepFault(s)) && FaultIsFinal(StepEgress(s, write)) && FaultIsFinal(StepIngress(s))
  {
  }

  lemma WorkKeepsFaultFinal(s: State, write: WriteAnswer, read: ReadAnswer)
    requires FaultIsFinal(s)
    ensures FaultIsFinal(StepWorker(s, write, read))
  {
    if s.worker.Reading? {
      ReadFrame(s, read);
      CallingKeepsFaultFinal(s, StepRead(s, read));
    } else if s.worker.Writing? {
      CallingKeepsFaultFinal(s, StepEgress(s, write));
    } else {
      QuietKeepsFaultFinal(s, write);
    }
  }

  lemma StepKeepsFaultFinal(s: State, a: Action)
    requires FaultIsFinal(s)
    ensures FaultIsFinal(Apply(s, a))
  {
    if a.Work? {
      WorkKeepsFaultFinal(s, a.write, a.read);
    } else {
      OthersLeaveWorkerAlone(s, a);
      if s.flags.failure.Some? {
        StepKeepsFailure(s, a);
      }
    }
  }

  lemma {:induction false} ReachableFaultIsFinal(config: Config, actions: seq<Action>)
    ensures FaultIsFinal(Run(Start(config), actions))
  {
    if actions != [] {
      ReachableFaultIsFinal(config, actions[..|actions| - 1]);
      StepKeepsFaultFinal(Run(Start(config), actions[..|actions| - 1]), actions[|actions| - 1]);
    }
  }

  /** The last call has failed and no call has been made since there were `calls`. */
  ghost predicate Faulted(s: State, calls: seq<Call>) {
    FaultIsFinal(s) && s.calls == calls && calls != [] && !calls[|calls| - 1].ok
  }

  lemma StepStaysFaulted(s: State, a: Action, calls: seq<Call>)
    requires Faulted(s, calls)
    ensures Faulted(Apply(s, a), calls)
  {
    StepAfterFault(s, a);
    StepKeepsFaultFinal(s, a);
  }

  lemma {:induction false} RunStaysFaulted(s: State, actions: seq<Action>, calls: seq<Call>)
    requires Faulted(s, calls)
    ensures Faulted(Run(s, actions), calls)
  {
    if actions != [] {
      RunStaysFaulted(s, actions[..|actions| - 1], calls);
      StepStaysFaulted(Run(s, actions[..|actions| - 1]), actions[|actions| - 1], calls);
    }
  }

  /** After its own read or write fault the worker makes no further backend call, whatever the others do. */
  lemma NoCallAfterFault(config: Config, earlier: seq<Action>, later: seq<Action>)
    requires var calls := Run(Start(config), earlier).calls; calls != [] && !calls[|calls| - 1].ok
    ensures Run(Run(Start(config), earlier), later).calls == Run(Start(config), earlier).calls
  {
    ReachableFaultIsFinal(config, earlier);
    RunStaysFaulted(Run(Start(config), earlier), later, Run(Start(config), earlier).calls);
  }

  lemma StepAfterFault(s: State, a: Action)
    requires FaultIsFinal(s) && s.calls != [] && !s.calls[|s.calls| - 1].ok
    ensures Apply(s, a).calls == s.calls
  {
    if !a.Work? {
      OthersLeaveWorkerAlone(s, a);
    }
  }

  // ---------------------------------------------------------------------
  // Ingress
  // ---------------------------------------------------------------------

  /** Packets read whose fate is not counted yet. */
  function Undecided(w: Worker): nat {
    if w.Fetched? || w.InOverfull? || w.InCleared? || w.InPosting? || w.InDelivered?
       || w.InRefunding? || w.InRefundingCount?
    then 1 else 0
  }

  function Decided(q: Ingress): nat {
    q.delivered + q.droppedPacket + q.droppedByte + q.droppedOversize
  }

  ghost predicate IngressCounted(s: State) {
    && ((s.worker.Exited? && s.owner.Gone?) || s.ingress.received == Decided(s.ingress) + Undecided(s.worker))
    && ((s.worker.InRefunding? || s.worker.InRefundingCount?) && !s.worker.full ==> s.owner.Gone?)
    && s.ingress.received == |s.ingress.fetched|
  }

  lemma {:induction false} ReachableIngressIsCounted(config: Config, actions: seq<Action>)
    ensures IngressCounted(Run(Start(config), actions))
  {
    if actions != [] {
      ReachableIngressIsCounted(config, actions[..|actions| - 1]);
      StepKeepsIngressCounted(Run(Start(config), actions[..|actions| - 1]), actions[|actions| - 1]);
    }
  }

  lemma PlacingKeepsIngressCounted(s: State)
    requires IngressCounted(s) && Undecided(s.worker) == 1
    ensures IngressCounted(StepIngress(s))
  {
  }

  lemma ReadKeepsIngressCounted(s: State, read: ReadAnswer)
    requires IngressCounted(s) && s.worker.Reading?
    ensures IngressCounted(StepRead(s, read))
  {
  }

  lemma OwnerKeepsIngressCounted(s: State, c: OwnerCommand)
    requires IngressCounted(s)
    ensures IngressCounted(StepOwner(s, c))
  {
  }

  lemma UntouchedKeepsIngressCounted(s: State, t: State)
    requires IngressCounted(s) && Undecided(s.worker) == 0 && Undecided(t.worker) == 0
    requires t.ingress == s.ingress && t.owner == s.owner && (s.worker.Exited? ==> t.worker.Exited?)
    ensures IngressCounted(t)
  {
  }

  lemma StepKeepsIngressCounted(s: State, a: Action)
    requires IngressCounted(s)
    ensures IngressCounted(Apply(s, a))
  {
    if a.Own? {
      OwnerKeepsIngressCounted(s, a.command);
    } else if !a.Work? {
      OthersLeaveWorkerAlone(s, a);
    } else if Undecided(s.worker) == 1 {
      PlacingKeepsIngressCounted(s);
    } else if s.worker.Reading? {
      ReadKeepsIngressCounted(s, a.read);
    } else if InEgress(s.worker) {
      UntouchedKeepsIngressCounted(s, StepEgress(s, a.write));
    } else if !s.worker.Exited? {
      UntouchedKeepsIngressCounted(s, StepFault(s));
    }
  }

  /** At loop boundaries every packet read is delivered or dropped for one counted reason. */
  lemma ReceivedIsAccountedFor(config: Config, actions: seq<Action>)
    requires var s := Run(Start(config), actions); s.worker.Top? || (s.worker.Exited? && !s.owner.Gone?)
    ensures var q := Run(Start(config), actions).ingress;
            q.received == q.delivered + q.droppedPacket + q.droppedByte + q.droppedOversize
  {
    ReachableIngressIsCounted(config, actions);
  }

  /** `a` is what remains of `b` after leaving some elements out. */
  predicate Subsequence(a: seq<Packet>, b: seq<Packet>)
    decreases |b|
  {
    || a == []
    || (b != []
        && ((a[|a| - 1] == b[|b| - 1] && Subsequence(a[..|a| - 1], b[..|b| - 1])) || Subsequence(a, b[..|b| - 1])))
  }

  lemma SubsequenceSnoc(a: seq<Packet>, b: seq<Packet>, p: Packet)
    requires Subsequence(a, b)
    ensures Subsequence(a, b + [p]) && Subsequence(a + [p], b + [p])
  {
    assert (b + [p])[..|b|] == b && (a + [p])[..|a|] == a;
  }

  lemma {:induction false} PrefixIsSubsequence(a: seq<Packet>, rest: seq<Packet>, b: seq<Packet>)
    requires Subsequence(a + rest, b)
    ensures Subsequence(a, b)
    decreases |b|, |rest|
  {
    if rest == [] {
      assert a + rest == a;
    } else if a != [] {
      var whole := a + rest;
      var shorter := b[..|b| - 1];
      if whole[|whole| - 1] == b[|b| - 1] && Subsequence(whole[..|whole| - 1], shorter) {
        assert whole[..|whole| - 1] == a + rest[..|rest| - 1];
        PrefixIsSubsequence(a, rest[..|rest| - 1], shorter);
      } else {
        PrefixIsSubsequence(a, rest, shorter);
      }
    }
  }

  function Undelivered(w: Worker): seq<Packet> {
    if w.Fetched? || w.InCleared? || w.InPosting? then [w.packet] else []
  }

  /** What was accepted, and the packet in hand, is a subsequence of what was read; the application took a prefix. */
  ghost predicate IngressOrdered(s: State) {
    var q := s.ingress;
    && q.accepted == q.taken + q.queue
    && Subsequence(q.accepted + Undelivered(s.worker), q.fetched)
  }

  lemma FetchingKeepsIngressOrdered(s: State, t: State, p: Packet)
    requires IngressOrdered(s) && Undelivered(s.worker) == []
    requires t.ingress.queue == s.ingress.queue && t.ingress.taken == s.ingress.taken
    requires t.ingress.accepted == s.ingress.accepted && t.ingress.fetched == s.ingress.fetched + [p]
    requires Undelivered(t.worker) == [] || Undelivered(t.worker) == [p]
    ensures IngressOrdered(t)
  {
    var q := s.ingress;
    assert q.accepted + [] == q.accepted;
    SubsequenceSnoc(q.accepted, q.fetched, p);
  }

  lemma ReadKeepsIngressOrdered(s: State, read: ReadAnswer)
    requires IngressOrdered(s) && s.worker.Reading?
    ensures IngressOrdered(StepRead(s, read))
  {
    var t := StepRead(s, read);
    if t.ingress.fetched == s.ingress.fetched {
      LettingGoKeepsIngressOrdered(s, t);
    } else {
      FetchingKeepsIngressOrdered(s, t, read.packet);
    }
  }

  /** Placing what was read either accepts it, keeps it in hand, or lets it go. */
  lemma PlacingFrame(s: State)
    ensures var t, q := StepIngress(s), s.ingress;
            && t.ingress.fetched == q.fetched && t.ingress.taken == q.taken
            && (if s.worker.InPosting? && t.worker.InDelivered? then
                  && t.ingress.queue == q.queue + [s.worker.packet]
                  && t.ingress.accepted == q.accepted + [s.worker.packet]
                else
                  && t.ingress.queue == q.queue && t.ingress.accepted == q.accepted
                  && (Undelivered(t.worker) == Undelivered(s.worker) || Undelivered(t.worker) == []))
  {
  }

  lemma LettingGoKeepsIngressOrdered(s: State, t: State)
    requires IngressOrdered(s) && t.ingress.fetched == s.ingress.fetched && t.ingress.taken == s.ingress.taken
    requires t.ingress.queue == s.ingress.queue && t.ingress.accepted == s.ingress.accepted
    requires Undelivered(t.worker) == []
    ensures IngressOrdered(t)
  {
    var q := s.ingress;
    PrefixIsSubsequence(q.accepted, Undelivered(s.worker), q.fetched);
    assert q.accepted + [] == q.accepted;
  }

  lemma AcceptingKeepsIngressOrdered(s: State, t: State, p: Packet)
    requires IngressOrdered(s) && t.ingress.fetched == s.ingress.fetched && t.ingress.taken == s.ingress.taken
    requires t.ingress.queue == s.ingress.queue + [p] && t.ingress.accepted == s.ingress.accepted + [p]
    requires Undelivered(s.worker) == [p] && Undelivered(t.worker) == []
    ensures IngressOrdered(t)
  {
    var q := s.ingress;
    assert (q.taken + q.queue) + [p] == q.taken + (q.queue + [p]);
    assert (q.accepted + [p]) + [] == q.accepted + [p];
  }

  lemma PlacingKeepsIngressOrdered(s: State)
    requires IngressOrdered(s)
    ensures IngressOrdered(StepIngress(s))
  {
    var t := StepIngress(s);
    PlacingFrame(s);
    if s.worker.InPosting? && t.worker.InDelivered? {
      AcceptingKeepsIngressOrdered(s, t, s.worker.packet);
    } else if Undelivered(t.worker) == [] {
      LettingGoKeepsIngressOrdered(s, t);
    }
  }

  /** The owner takes the front of the queue, or leaves the packets alone. */
  lemma OwnerFrame(s: State, c: OwnerCommand)
    ensures var t, q := StepOwner(s, c), s.ingress;
            && t.worker == s.worker && t.ingress.fetched == q.fetched && t.ingress.accepted == q.accepted
            && ((t.ingress.queue == q.queue && t.ingress.taken == q.taken)
                || (q.queue != [] && t.ingress.queue == q.queue[1..] && t.ingress.taken == q.taken + [q.queue[0]]))
  {
  }

  lemma OwnerKeepsIngressOrdered(s: State, c: OwnerCommand)
    requires IngressOrdered(s)
    ensures IngressOrdered(StepOwner(s, c))
  {
    OwnerFrame(s, c);
    if s.ingress.queue != [] {
      TakingKeepsListing(s.ingress.taken, s.ingress.queue);
    }
  }

  lemma TakingKeepsListing(taken: seq<Packet>, queue: seq<Packet>)
    requires queue != []
    ensures taken + queue == (taken + [queue[0]]) + queue[1..]
  {
  }

  /** A step with nothing in hand and no answer to take leaves the ingress side alone. */
  lemma QuietLeavesIngress(s: State, write: WriteAnswer, read: ReadAnswer)
    requires !s.worker.Reading? && Undecided(s.worker) == 0
    ensures var t := StepWorker(s, write, read);
            t.ingress == s.ingress && Undelivered(t.worker) == []
  {
  }

  lemma WorkKeepsIngressOrdered(s: State, write: WriteAnswer, read: ReadAnswer)
    requires IngressOrdered(s)
    ensures IngressOrdered(StepWorker(s, write, read))
  {
    if s.worker.Reading? {
      ReadKeepsIngressOrdered(s, read);
    } else if Undecided(s.worker) == 1 {
      PlacingKeepsIngressOrdered(s);
    } else {
      QuietLeavesIngress(s, write, read);
      LettingGoKeepsIngressOrdered(s, StepWorker(s, write, read));
    }
  }

  lemma StepKeepsIngressOrdered(s: State, a: Action)
    requires IngressOrdered(s)
    ensures IngressOrdered(Apply(s, a))
  {
    match a
    case Work(write, read) => WorkKeepsIngressOrdered(s, write, read);
    case Own(c) => OwnerKeepsIngressOrdered(s, c);
    case _ =>
  }

  lemma {:induction false} ReachableIngressIsOrdered(config: Config, actions: seq<Action>)
    ensures IngressOrdered(Run(Start(config), actions))
  {
    if actions != [] {
      ReachableIngressIsOrdered(config, actions[..|actions| - 1]);
      StepKeepsIngressOrdered(Run(Start(config), actions[..|actions| - 1]), actions[|actions| - 1]);
    }
  }

  /** The packets the application receives are an in-order subsequence of those the backend returned. */
  lemma ReceivedInReadOrder(config: Config, actions: seq<Action>)
    ensures var q := Run(Start(config), actions).ingress;
            Subsequence(q.taken, q.fetched)
  {
    var s := Run(Start(config), actions);
    ReachableIngressIsOrdered(config, actions);
    PrefixIsSubsequence(s.ingress.accepted, Undelivered(s.worker), s.ingress.fetched);
    PrefixIsSubsequence(s.ingress.taken, s.ingress.queue, s.ingress.fetched);
  }

  function WorkerInBytes(w: Worker): nat {
    if w.InOverfull? || w.InCleared? || w.InPosting? || w.InRefunding? then |w.packet| else 0
  }

  function WorkerInCount(w: Worker): nat {
    if w.InPosting? || w.InRefunding? || w.InRefundingCount? then 1 else 0
  }

  /** The ingress gauges count the queue, the packet the worker is placing and the one the owner is taking. */
  ghost predicate IngressBalanced(s: State) {
    var q := s.ingress;
    && q.gaugeBytes == Bytes(q.queue) + WorkerInBytes(s.worker)
                       + (if s.owner.Taking? || s.owner.TakingBytes? then |s.owner.packet| else 0)
    && q.gaugePackets == |q.queue| + WorkerInCount(s.worker) + (if s.owner.Taking? then 1 else 0)
    && Bytes(q.queue) + (if s.worker.InCleared? || s.worker.InPosting? then |s.worker.packet| else 0)
       <= s.config.ingressMaxBytes
    && |q.queue| <= s.config.ingressMaxPackets
  }

  lemma PlacingKeepsIngressBalanced(s: State)
    requires IngressBalanced(s)
    ensures IngressBalanced(StepIngress(s))
  {
    if s.worker.InPosting? {
      var posted: seq<Packet> := [s.worker.packet];
      BytesAppend(s.ingress.queue, posted);
      assert posted[..0] == [];
    }
  }

  lemma OwnerKeepsIngressBalanced(s: State, c: OwnerCommand)
    requires IngressBalanced(s)
    ensures IngressBalanced(StepOwner(s, c))
  {
    if s.ingress.queue != [] {
      BytesCons(s.ingress.queue);
    }
  }

  lemma UntouchedKeepsIngressBalanced(s: State, t: State)
    requires IngressBalanced(s) && t.config == s.config && t.owner == s.owner
    requires t.ingress.queue == s.ingress.queue
    requires t.ingress.gaugeBytes == s.ingress.gaugeBytes && t.ingress.gaugePackets == s.ingress.gaugePackets
    requires WorkerInBytes(t.worker) == WorkerInBytes(s.worker) && WorkerInCount(t.worker) == WorkerInCount(s.worker)
    requires !t.worker.InCleared? && !t.worker.InPosting?
    ensures IngressBalanced(t)
  {
  }

  lemma OtherWorkKeepsIngressBalanced(s: State, write: WriteAnswer, read: ReadAnswer)
    requires IngressBalanced(s) && Undecided(s.worker) == 0
    ensures IngressBalanced(StepWorker(s, write, read))
  {
    if s.worker.Reading? {
      UntouchedKeepsIngressBalanced(s, StepRead(s, read));
    } else if InEgress(s.worker) {
      UntouchedKeepsIngressBalanced(s, StepEgress(s, write));
    } else if !s.worker.Exited? {
      UntouchedKeepsIngressBalanced(s, StepFault(s));
    }
  }

  lemma StepKeepsIngressBalanced(s: State, a: Action)
    requires IngressBalanced(s)
    ensures IngressBalanced(Apply(s, a))
  {
    match a
    case Work(write, read) =>
      if Undecided(s.worker) == 1 {
        PlacingKeepsIngressBalanced(s);
      } else {
        OtherWorkKeepsIngressBalanced(s, write, read);
      }
    case Own(c) => OwnerKeepsIngressBalanced(s, c);
    case _ => OthersLeaveWorkerAlone(s, a);
  }

  /** The ingress queue stays within its packet and byte bounds and its gauges never go below zero. */
  lemma {:induction false} IngressStaysWithinBounds(config: Config, actions: seq<Action>)
    ensures IngressBalanced(Run(Start(config), actions))
  {
    if actions != [] {
      IngressStaysWithinBounds(config, actions[..|actions| - 1]);
      StepKeepsIngressBalanced(Run(Start(config), actions[..|actions| - 1]), actions[|actions| - 1]);
    }
  }
}
