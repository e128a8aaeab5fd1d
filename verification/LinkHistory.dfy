/** What the log of a link must look like: the rules each event obeys, given everything before it. */
module LinkHistory {
  import opened Basics
  import opened Estimates
  import opened Sessions
  import opened LinkModel

  // ---- reading the log

  /** The latest heartbeat, if any. */
  function LastHeard(log: seq<Event>): Option<Event>
    ensures LastHeard(log).Some? ==> LastHeard(log).value.Heard?
  {
    if log == [] then None
    else if log[|log| - 1].Heard? then Some(log[|log| - 1])
    else LastHeard(log[..|log| - 1])
  }

  /** The generation begun last, if any. */
  function LastGeneration(log: seq<Event>): Option<nat> {
    if log == [] then None
    else if log[|log| - 1].Began? then Some(log[|log| - 1].generation)
    else LastGeneration(log[..|log| - 1])
  }

  /** How many generations were begun. */
  function Generations(log: seq<Event>): nat {
    if log == [] then 0
    else Generations(log[..|log| - 1]) + if log[|log| - 1].Began? then 1 else 0
  }

  /** The estimate queued last in the generation begun last, if any. */
  function LastQueued(log: seq<Event>): Option<Estimate> {
    if log == [] then None
    else
      var e := log[|log| - 1];
      if e.Began? then None
      else if e.Offered? && e.queued then Some(e.estimate)
      else LastQueued(log[..|log| - 1])
  }

  /** Some outstanding command was refused for good. */
  function Denied(log: seq<Event>): bool {
    if log == [] then false
    else
      var e := log[|log| - 1];
      (e.Replied? && e.honoured && e.message.AckMessage? && e.message.result.ResultOther?) || Denied(log[..|log| - 1])
  }

  /** The latest write, if any. */
  function LastWrite(log: seq<Event>): Option<Event>
    ensures LastWrite(log).Some? ==> LastWrite(log).value.Wrote?
  {
    if log == [] then None
    else if log[|log| - 1].Wrote? then Some(log[|log| - 1])
    else LastWrite(log[..|log| - 1])
  }

  /** Alignment commands written in full since the last session start or honoured acceptance. */
  function Unresolved(log: seq<Event>): nat {
    if log == [] then 0
    else
      var e := log[|log| - 1];
      if e.Began? || (e.Replied? && e.honoured && e.result.Accepted?) then 0
      else Unresolved(log[..|log| - 1]) + if e.CompletesAlignment() then 1 else 0
  }

  /** Every byte the stream accepted, in order. */
  function WireBytes(log: seq<Event>): seq<Byte> {
    if log == [] then []
    else
      var e := log[|log| - 1];
      WireBytes(log[..|log| - 1])
      + if e.Wrote? && e.offset + e.count <= |e.bytes| then e.bytes[e.offset..e.offset + e.count] else []
  }

  /** The buffers the stream accepted in full, one after the other. */
  function WholePackets(log: seq<Event>): seq<Byte> {
    if log == [] then []
    else
      var e := log[|log| - 1];
      WholePackets(log[..|log| - 1]) + if e.Completes() then e.bytes else []
  }

  /** The accepted part of a packet buffer that was not (or not yet) accepted in full. */
  function Remnant(log: seq<Event>): seq<Byte> {
    var last := LastWrite(log);
    if last.Some? && last.value.offset + last.value.count < |last.value.bytes|
    then last.value.bytes[..last.value.offset + last.value.count] else []
  }

  /** The encoding of a cargo: its packets end to end. */
  function Encode(codec: Codec, cargo: seq<Stamped>): seq<Byte> {
    if cargo == [] then [] else Encode(codec, cargo[..|cargo| - 1]) + codec(cargo[|cargo| - 1])
  }

  /** The heartbeat heard last before `now` still counts as recent. */
  ghost predicate Recent(log: seq<Event>, timeout: Time, now: Time) {
    LastHeard(log).Some? && 0 <= now - LastHeard(log).value.now < timeout
  }

  ghost predicate Disarmed(log: seq<Event>) {
    LastHeard(log).Some? && !LastHeard(log).value.armed
  }

  /** No session was started at or after index `from`. */
  ghost predicate SameGeneration(log: seq<Event>, from: nat) {
    forall i :: from <= i < |log| ==> !log[i].Began?
  }

  /** From index `from` on, each heartbeat followed its predecessor within the timeout. */
  ghost predicate Unbroken(log: seq<Event>, timeout: Time, from: nat) {
    forall i {:trigger Recent(log[..i], timeout, log[i].now)} ::
      from <= i < |log| && log[i].Heard? ==> Recent(log[..i], timeout, log[i].now)
  }

  /** Index `m` is a complete measurement of this generation, and the controller was heard ever since. */
  ghost predicate Primed(log: seq<Event>, timeout: Time, m: nat) {
    && m < |log| && log[m].CompletesMeasurement()
    && SameGeneration(log, m) && Unbroken(log, timeout, m)
  }

  /** Index `a` is a complete alignment command sent after the measurement at `m`. */
  ghost predicate Requested(log: seq<Event>, timeout: Time, m: nat, a: nat) {
    Primed(log, timeout, m) && m < a < |log| && log[a].CompletesAlignment()
  }

  /** Index `k` is the controller's acceptance, honoured while disarmed, of the command at `a`. */
  ghost predicate Granted(log: seq<Event>, timeout: Time, m: nat, a: nat, k: nat) {
    && Requested(log, timeout, m, a) && a < k < |log|
    && log[k].Replied? && log[k].result.Accepted? && log[k].honoured
  }

  /** The evidence that entitles the link to publish to an armed vehicle. */
  ghost predicate Justified(log: seq<Event>, timeout: Time) {
    exists m: nat, a: nat, k: nat :: Granted(log, timeout, m, a, k)
  }

  // ---- the rules

  /** Where the next byte of the buffer stands: a new buffer only after a whole one, else the very next byte. */
  ghost predicate Continues(log: seq<Event>, e: Event)
    requires e.Wrote?
  {
    var last := LastWrite(log);
    if last.None? || last.value.Completes() then e.offset == 0
    else e.offset == last.value.offset + last.value.count && e.bytes == last.value.bytes
         && e.kind == last.value.kind && e.cargo == last.value.cargo && e.timestamp == last.value.timestamp
  }

  /** Whole microseconds of a time in nanoseconds. */
  predicate Stamps(usec: nat, timestamp: Time) {
    1000 * usec <= timestamp < 1000 * usec + 1000
  }

  /**
   * The packets of one measurement: the pose of the estimate, and its velocity where configured, in the
   * controller's axes and with the estimate's stamp.
   */
  predicate MeasurementCargo(s: Settings, cargo: seq<Stamped>, e: Estimate, reset: Byte) {
    var at := s.transform(e);
    && |cargo| == (if s.sendVelocity then 2 else 1)
    && cargo[0].packet.Pose? && Stamps(cargo[0].packet.usec, e.timestamp)
    && cargo[0].packet.position == at.position && cargo[0].packet.attitude == at.attitude
    && cargo[0].packet.poseReset == reset
    && (s.sendVelocity ==>
          && cargo[1].packet.Speed? && Stamps(cargo[1].packet.usec, e.timestamp)
          && cargo[1].packet.velocity == at.velocity && cargo[1].packet.speedReset == reset
          && cargo[1].sequence == Increment(cargo[0].sequence))
  }

  /** The estimate may be sent: it is of the current generation, in time, usable, newer and fits the wire. */
  ghost predicate Presentable(s: Settings, log: seq<Event>, e: Estimate, now: Time) {
    && LastGeneration(log) == Some(e.generation)
    && e.ready && 0 <= e.timestamp <= now && now - e.timestamp <= s.session.maxEstimateAge
    && e.finite && e.orientation.NormSquared() >= TINY
    && (LastQueued(log).Some? ==> LastQueued(log).value.timestamp < e.timestamp)
    && var at := s.transform(e); FitsWire(at.position) && FitsWire(at.velocity) && FitsWire(at.attitude)
  }

  /** The vehicle may be told where it is: the controller is heard, and disarmed or aligned. */
  ghost predicate Permitted(s: Settings, log: seq<Event>, now: Time) {
    && LastGeneration(log).Some?
    && Recent(log, s.session.heartbeatTimeout, now)
    && (Disarmed(log) || Justified(log, s.session.heartbeatTimeout))
  }

  /** The reset byte of the generation begun last: one step per generation after the first. */
  function ResetByte(s: Settings, log: seq<Event>): Byte {
    if Generations(log) == 0 then s.initialReset else (s.initialReset + Generations(log) - 1) % 256
  }

  /** Measurement bytes already on the wire in this generation precede those at `offset` of this measurement. */
  ghost predicate Follows(log: seq<Event>, timestamp: Time, offset: nat) {
    forall j :: 0 <= j < |log| && log[j].Wrote? && log[j].kind.MeasurementPending? && SameGeneration(log, j) ==>
      log[j].timestamp < timestamp || (log[j].timestamp == timestamp && log[j].offset + log[j].count <= offset)
  }

  ghost predicate MeasurementRule(s: Settings, log: seq<Event>, e: Event)
    requires e.Wrote?
  {
    && Permitted(s, log, e.now)
    && e.now - e.timestamp <= s.session.maxEstimateAge
    && LastQueued(log).Some? && LastQueued(log).value.timestamp == e.timestamp >= 0
    && MeasurementCargo(s, e.cargo, LastQueued(log).value, ResetByte(s, log))
    && Follows(log, e.timestamp, e.offset)
  }

  ghost predicate AlignmentRule(s: Settings, log: seq<Event>, e: Event)
    requires e.Wrote?
  {
    && LastGeneration(log).Some?
    && Recent(log, s.session.heartbeatTimeout, e.now) && Disarmed(log)
    && (exists m: nat :: Primed(log, s.session.heartbeatTimeout, m)
                    && 0 <= e.now - log[m].timestamp <= s.session.maxEstimateAge)
    && Unresolved(log) < s.session.alignmentAttempts
    && |e.cargo| == 1 && e.cargo[0].packet.Align? && e.cargo[0].packet.confirmation == Unresolved(log)
  }

  ghost predicate HeartbeatRule(e: Event)
    requires e.Wrote?
  {
    |e.cargo| == 1 && e.cargo[0].packet == Presence
  }

  ghost predicate WriteRule(s: Settings, log: seq<Event>, e: Event)
    requires e.Wrote?
  {
    && Closed !in log && !Denied(log)
    && 0 < e.count && e.offset + e.count <= |e.bytes| && e.bytes == Encode(s.codec, e.cargo)
    && Continues(log, e)
    && match e.kind
       case MeasurementPending => MeasurementRule(s, log, e)
       case AlignmentPending => AlignmentRule(s, log, e)
       case HeartbeatPending => HeartbeatRule(e)
       case NoPending => false
  }

  /** The controller's answer to our command, addressed to us or to nobody in particular. */
  predicate Answers(s: Settings, m: Incoming) {
    && m.AckMessage? && m.sender == s.controller && m.auxiliary
    && (m.targetSystem == 0 || m.targetSystem == s.source.system)
    && (m.targetComponent == 0 || m.targetComponent == s.source.component)
  }

  /** The answer the message gives. */
  predicate Says(m: Incoming, result: AlignmentResult)
    requires m.AckMessage?
  {
    match m.result
    case ResultAccepted => result.Accepted?
    case ResultInProgress => result.InProgress?
    case ResultTemporarilyRejected => result.Retry?
    case ResultOther => result.Rejected?
  }

  /**
   * A reply is what the controller's answer says, and honoured only for an outstanding command, from a fresh
   * and disarmed controller.
   */
  ghost predicate ReplyRule(s: Settings, log: seq<Event>, e: Event)
    requires e.Replied?
  {
    && Answers(s, e.message) && Says(e.message, e.result)
    && (e.honoured ==> Unresolved(log) > 0 && Recent(log, s.session.heartbeatTimeout, e.now) && Disarmed(log))
  }

  /** The armed bit is the one in a heartbeat of the controller that is not a ground station's. */
  predicate HeardRule(s: Settings, e: Event)
    requires e.Heard?
  {
    e.message == HeartbeatMessage(s.controller, true, false, e.armed)
  }

  ghost predicate OfferRule(s: Settings, log: seq<Event>, e: Event)
    requires e.Offered?
  {
    e.queued ==>
      && Closed !in log && (LastWrite(log).Some? ==> LastWrite(log).value.Completes())
      && Permitted(s, log, e.now) && Presentable(s, log, e.estimate, e.now)
  }

  /** A session starts on an open link with nothing unresolved and a larger generation than any before. */
  ghost predicate BeginRule(log: seq<Event>, e: Event)
    requires e.Began?
  {
    && Closed !in log && Unresolved(log) == 0
    && (LastWrite(log).Some? ==> LastWrite(log).value.Completes())
    && (LastGeneration(log).Some? ==> LastGeneration(log).value < e.generation)
  }

  ghost predicate EventRule(s: Settings, log: seq<Event>, e: Event) {
    match e
    case Began(_) => BeginRule(log, e)
    case Heard(_, _, _) => Closed !in log && HeardRule(s, e)
    case Replied(_, _, _, _) => Closed !in log && ReplyRule(s, log, e)
    case Offered(_, _, _) => OfferRule(s, log, e)
    case Wrote(_, _, _, _, _, _, _) => WriteRule(s, log, e)
    case Closed => Closed !in log
  }

  /** Every event of the log obeys its rule, given the events before it. */
  ghost predicate Lawful(s: Settings, log: seq<Event>) {
    forall i {:trigger EventRule(s, log[..i], log[i])} :: 0 <= i < |log| ==> EventRule(s, log[..i], log[i])
  }
}
