/**
 * The MAVLink link as a value (src/mavlink_link.cpp): what each public call computes.
 *
 * Beside the fields of the source the value carries the bytes the stream has accepted (`wire`), the
 * packets behind the buffered bytes (`cargo`) and a log of what happened, for the theorems to speak of.
 */
module LinkModel {
  import opened Basics
  import opened Estimates
  import opened Sessions

  const MAX_PACKET := 280
  const BUFFER_SIZE := 2 * MAX_PACKET
  const READ_BUDGET := 4096
  const HEARTBEAT_PERIOD: Time := 1_000_000_000

  /** One encoded packet: never empty, never longer than the protocol allows. */
  type Frame = f: seq<Byte> | 1 <= |f| <= MAX_PACKET witness [0]

  datatype Packet =
    | Pose(usec: nat, position: Vec3, attitude: Vec3, poseReset: Byte)
    | Speed(usec: nat, velocity: Vec3, speedReset: Byte)
    | Align(confirmation: Byte)
    | Presence

  /** A packet with the transmit sequence number it was packed with. */
  datatype Stamped = Stamped(packet: Packet, sequence: Byte)

  /** The generated encoder, left opaque. */
  type Codec = Stamped -> Frame

  /** Estimate in ArduPilot's axes; the timestamp is the estimate's own. */
  datatype Coordinates = Coordinates(position: Vec3, velocity: Vec3, attitude: Vec3)

  datatype Address = Address(system: Byte, component: Byte)

  datatype Settings = Settings(
    source: Address,
    controller: Address,
    session: Config,
    sendVelocity: bool,
    initialReset: Byte,
    codec: Codec,
    transform: Estimate -> Coordinates)
  {
    predicate Valid() {
      && source.system != 0 && source.component != 0 && controller.system != 0 && controller.component != 0
      && source != controller && session.Valid()
    }
  }

  datatype CommandResult = ResultAccepted | ResultInProgress | ResultTemporarilyRejected | ResultOther

  /** A decoded packet from the wire, as far as the link looks at it. */
  datatype Incoming =
    | HeartbeatMessage(sender: Address, ardupilot: bool, groundStation: bool, armed: bool)
    | AckMessage(sender: Address, auxiliary: bool, targetSystem: Byte, targetComponent: Byte,
                 result: CommandResult)
    | OtherMessage(sender: Address)

  /** What the byte parser reports: a whole message, or one with a bad checksum or signature. */
  datatype Parsed = Received(message: Incoming) | Damaged

  datatype ReadOutcome = ReadThrew | Read(count: nat, parsed: seq<Parsed>)

  /** The stream takes as many of the offered bytes as it likes, up to `willing`, or throws. */
  datatype WriteOutcome = WriteThrew | Willing(willing: nat)

  datatype PendingKind = NoPending | MeasurementPending | AlignmentPending | HeartbeatPending

  datatype PublishResult = Queued | Held | InvalidEstimate | OutOfOrder | Busy | PublishThrew

  datatype Event =
    | Began(generation: nat)
    | Heard(message: Incoming, armed: bool, now: Time)
    | Replied(message: Incoming, result: AlignmentResult, now: Time, honoured: bool)
    | Offered(estimate: Estimate, now: Time, queued: bool)
    | Wrote(kind: PendingKind, timestamp: Time, cargo: seq<Stamped>, bytes: seq<Byte>, now: Time,
            offset: nat, count: nat)
    | Closed
  {
    /** The stream took the last byte of the buffer. */
    predicate Completes() {
      Wrote? && offset + count == |bytes|
    }

    predicate CompletesMeasurement() {
      Completes() && kind.MeasurementPending?
    }

    predicate CompletesAlignment() {
      Completes() && kind.AlignmentPending?
    }
  }

  datatype Link = Link(
    settings: Settings,
    open: bool,
    session: Session,
    started: bool,
    kind: PendingKind,
    bytes: seq<Byte>,
    offset: nat,
    timestamp: Time,
    deadline: Time,
    nextHeartbeat: Time,
    lastEstimate: Option<Time>,
    sequence: Byte,
    sent: nat,
    dropped: nat,
    invalid: nat,
    cargo: seq<Stamped>,
    wire: seq<Byte>,
    log: seq<Event>)

  function Opened(settings: Settings): Link {
    Link(settings, true, NewSession(settings.session, settings.initialReset), false, NoPending, [], 0, 0, 0, 0,
         None, 0, 0, 0, 0, [], [], [])
  }

  function ClearPending(l: Link): Link {
    l.(kind := NoPending, bytes := [], offset := 0, cargo := [])
  }

  /** `fail`: stop publication and release the stream. */
  function Close(l: Link): Link {
    ClearPending(l).(session := l.session.Fail(), open := false, log := l.log + [Closed])
  }

  // ---- session control

  datatype SessionStart = Started | Refused(reason: StartResult) | PartialTransmission

  function StartSession(l: Link, generation: nat): (Link, SessionStart) {
    if l.offset != 0 then (Close(l), PartialTransmission)
    else
      var (session, result) := l.session.Start(generation);
      if !result.Begun? then (l, Refused(result))
      else (ClearPending(l).(session := session, lastEstimate := None, started := true,
                             log := l.log + [Began(generation)]), Started)
  }

  function EndSession(l: Link): Link {
    var ended := l.(started := false);
    if l.offset != 0 then Close(ended) else ClearPending(ended)
  }

  // ---- reception

  /** The reply an acknowledgment stands for, or None when it is not ours to resolve. */
  function ReplyFor(settings: Settings, m: Incoming): Option<AlignmentResult>
    requires m.AckMessage?
  {
    if !m.auxiliary
       || (m.targetSystem != 0 && m.targetSystem != settings.source.system)
       || (m.targetComponent != 0 && m.targetComponent != settings.source.component) then None
    else match m.result
      case ResultAccepted => Some(Accepted)
      case ResultInProgress => Some(InProgress)
      case ResultTemporarilyRejected => Some(Retry)
      case ResultOther => Some(Rejected)
  }

  function Hear(l: Link, m: Incoming, armed: bool, now: Time): Link {
    l.(session := l.session.Heartbeat(armed, now), log := l.log + [Heard(m, armed, now)])
  }

  function Reply(l: Link, m: Incoming, result: AlignmentResult, now: Time): Link {
    l.(session := l.session.Acknowledge(result, now),
       log := l.log + [Replied(m, result, now, l.session.Honours(now))])
  }

  function Receive(l: Link, m: Incoming, now: Time): Link {
    if m.sender != l.settings.controller then l
    else match m
      case HeartbeatMessage(_, ardupilot, groundStation, armed) =>
        if ardupilot && !groundStation then Hear(l, m, armed, now) else l
      case AckMessage(_, _, _, _, _) =>
        var reply := ReplyFor(l.settings, m);
        if reply.Some? then Reply(l, m, reply.value, now) else l
      case OtherMessage(_) => l
  }

  function ReceiveOne(l: Link, p: Parsed, now: Time): Link {
    match p
    case Received(message) => Receive(l, message, now)
    case Damaged => l.(invalid := l.invalid + 1)
  }

  /** Reception never touches the transmit side. */
  function ReceiveAll(l: Link, parsed: seq<Parsed>, now: Time): (r: Link)
    ensures r.bytes == l.bytes && r.offset == l.offset && r.kind == l.kind && r.wire == l.wire
            && r.settings == l.settings && r.started == l.started && r.open == l.open
  {
    if parsed == [] then l
    else ReceiveOne(ReceiveAll(l, parsed[..|parsed| - 1], now), parsed[|parsed| - 1], now)
  }

  // ---- queueing

  /** Pack one packet behind those already buffered; false where the source throws `logic_error`. */
  function Append(l: Link, packet: Packet): (Link, bool) {
    var stamped := Stamped(packet, l.sequence);
    var packed := l.(sequence := Increment(l.sequence));
    if |l.bytes| + MAX_PACKET > BUFFER_SIZE then (packed, false)
    else (packed.(bytes := l.bytes + l.settings.codec(stamped), cargo := l.cargo + [stamped]), true)
  }

  /** The largest finite float, and so the largest magnitude a coordinate may have on the wire. */
  const FLOAT_MAX := 340282346638528859811704183484516925440.0

  predicate FitsWire(v: Vec3) {
    -FLOAT_MAX <= v.x <= FLOAT_MAX && -FLOAT_MAX <= v.y <= FLOAT_MAX && -FLOAT_MAX <= v.z <= FLOAT_MAX
  }

  function Microseconds(t: Time): nat
    requires 0 <= t
  {
    t / 1000
  }

  /** Buffer the pose and (if configured) velocity packets of an accepted estimate. */
  function QueueMeasurement(l: Link, e: Estimate, at: Coordinates, now: Time): (Link, PublishResult)
    requires 0 <= e.timestamp
  {
    var usec := Microseconds(e.timestamp);
    var (posed, first) := Append(l, Pose(usec, at.position, at.attitude, l.session.resetCounter));
    if !first then (posed, PublishThrew)
    else
      var (full, second) := if l.settings.sendVelocity
                            then Append(posed, Speed(usec, at.velocity, l.session.resetCounter))
                            else (posed, true);
      if !second then (full, PublishThrew)
      else (full.(kind := MeasurementPending,
                  timestamp := e.timestamp,
                  deadline := now + (l.settings.session.maxEstimateAge - (now - e.timestamp)),
                  lastEstimate := Some(e.timestamp)), Queued)
  }

  /** What becomes of an offered estimate once the session has looked at the time. */
  function Consider(l: Link, e: Estimate, now: Time): (Link, PublishResult) {
    if !l.started || !l.open || !l.session.CanPublish(now) then (l, Held)
    else
      var verdict := Validate(e, l.session.generation.value, now, l.settings.session.maxEstimateAge);
      if verdict.None? then (l, PublishThrew)
      else if verdict != Some(Acceptable) then (l, InvalidEstimate)
      else if l.lastEstimate.Some? && e.timestamp <= l.lastEstimate.value then (l, OutOfOrder)
      else if !l.kind.NoPending? || l.session.AlignmentDue(now) || now >= l.nextHeartbeat then (l, Busy)
      else
        var at := l.settings.transform(e);
        if !FitsWire(at.position) || !FitsWire(at.velocity) || !FitsWire(at.attitude) then (l, InvalidEstimate)
        else QueueMeasurement(l, e, at, now)
  }

  function Publish(l: Link, e: Estimate, now: Time): (Link, PublishResult) {
    var (r, result) := Consider(l.(session := l.session.Tick(now)), e, now);
    (r.(log := r.log + [Offered(e, now, result.Queued?)]), result)
  }

  function QueueAlignment(l: Link, now: Time): (Link, bool) {
    var (queued, ok) := Append(l, Align(l.session.attempts % 256));
    if !ok then (queued, false)
    else (queued.(kind := AlignmentPending, deadline := now + l.settings.session.alignmentTimeout), true)
  }

  function QueueHeartbeat(l: Link, now: Time): (Link, bool) {
    var (queued, ok) := Append(l, Presence);
    if !ok then (queued, false)
    else (queued.(kind := HeartbeatPending, deadline := now + HEARTBEAT_PERIOD,
                  nextHeartbeat := now + HEARTBEAT_PERIOD), true)
  }

  // ---- servicing

  predicate Eligible(l: Link, now: Time) {
    match l.kind
    case MeasurementPending => l.session.CanPublish(now)
    case AlignmentPending => l.session.AlignmentDue(now)
    case _ => true
  }

  /** Drop pending data that expired or lost its permission; a partial packet takes the link with it. */
  function Expire(l: Link, now: Time): Link {
    if l.kind.NoPending? || (Eligible(l, now) && now <= l.deadline) then l
    else
      var counted := if l.kind.MeasurementPending? then l.(dropped := l.dropped + 1) else l;
      if l.offset != 0 then Close(counted) else ClearPending(counted)
  }

  /** Choose the next control packet when the buffer is free. */
  function Fill(l: Link, now: Time): (r: (Link, bool))
    ensures r.0.settings == l.settings && r.0.offset == l.offset && |l.bytes| <= |r.0.bytes|
  {
    if !l.kind.NoPending? then (l, true)
    else if l.started && l.session.AlignmentDue(now) then QueueAlignment(l, now)
    else if now >= l.nextHeartbeat then QueueHeartbeat(l, now)
    else (l, true)
  }

  /** The stream accepts the next `count` bytes of the buffer. */
  function Transmit(l: Link, count: nat, now: Time): Link
    requires l.offset + count <= |l.bytes|
  {
    l.(offset := l.offset + count,
       wire := l.wire + l.bytes[l.offset..l.offset + count],
       log := if count == 0 then l.log
              else l.log + [Wrote(l.kind, l.timestamp, l.cargo, l.bytes, now, l.offset, count)])
  }

  /** Tell the policy what was written in full, and free the buffer. */
  function Conclude(l: Link, now: Time): (Link, bool) {
    match l.kind
    case MeasurementPending =>
      (ClearPending(l.(sent := l.sent + 1, session := l.session.MeasurementSent(l.timestamp))), true)
    case AlignmentPending =>
      var (session, ok) := l.session.AlignmentSent(now);
      if !ok then (l, false) else (ClearPending(l.(session := session)), true)
    case _ => (ClearPending(l), true)
  }

  function Accepts(l: Link, willing: nat): nat
    requires l.offset <= |l.bytes|
  {
    if willing <= |l.bytes| - l.offset then willing else |l.bytes| - l.offset
  }

  /** Offer the rest of the buffer to the stream; false where a `logic_error` would escape. */
  function Offer(l: Link, now: Time, write: WriteOutcome): (r: (Link, bool))
    requires l.offset <= |l.bytes|
    ensures r.0.settings == l.settings
  {
    if write.WriteThrew? then (Close(l), true)
    else
      var moved := Transmit(l, Accepts(l, write.willing), now);
      if moved.offset != |moved.bytes| then (moved, true) else Conclude(moved, now)
  }

  /** The transmitting half of `poll`. */
  function Send(l: Link, now: Time, write: WriteOutcome): (r: (Link, bool))
    requires l.offset <= |l.bytes|
    ensures r.0.settings == l.settings
  {
    var (filled, ok) := Fill(l, now);
    if !ok then (filled, false)
    else if filled.kind.NoPending? then (filled, true)
    else Offer(filled, now, write)
  }

  function Poll(l: Link, now: Time, read: ReadOutcome, write: WriteOutcome): (r: (Link, bool))
    requires l.offset <= |l.bytes|
    ensures r.0.settings == l.settings
  {
    if !l.open then (l, true)
    else
      var ticked := l.(session := l.session.Tick(now));
      if read.ReadThrew? then (Close(ticked), true)
      else
        var heard := ReceiveAll(ticked, read.parsed, now);
        if heard.session.state.Failed? then (Close(heard), true)
        else
          var kept := Expire(heard, now);
          if !kept.open || read.count == READ_BUDGET then (kept, true) else Send(kept, now, write)
  }

  /** The link once a poll has read its input. */
  function AfterReading(l: Link, now: Time, read: ReadOutcome): Link {
    var ticked := l.(session := l.session.Tick(now));
    match read
    case ReadThrew => ticked
    case Read(_, parsed) => ReceiveAll(ticked, parsed, now)
  }
}
