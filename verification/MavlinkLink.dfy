/**
 * The link object (src/mavlink_link.cpp): one owner of the stream, the transmit buffer and the session.
 * Each method updates the fields in place and is proved to compute its counterpart in `LinkModel`.
 */
module MavlinkLinks {
  import opened Basics
  import opened Estimates
  import opened Sessions
  import opened LinkModel

  class MavlinkLink {
    const settings: Settings
    const session: FlightSession
    const pending: array<Byte>
    /** The stream is still owned; `fail` releases it. */
    var open: bool
    var started: bool
    var pendingKind: PendingKind
    var pendingSize: nat
    var pendingOffset: nat
    var pendingTimestamp: Time
    var pendingDeadline: Time
    var nextHeartbeat: Time
    var lastEstimateTime: Option<Time>
    var sequence: Byte
    var measurementsSent: nat
    var measurementsDropped: nat
    var invalidFrames: nat
    ghost var cargo: seq<Stamped>
    ghost var wire: seq<Byte>
    ghost var log: seq<Event>

    ghost predicate Valid()
      reads this, pending
    {
      pending.Length == BUFFER_SIZE && pendingOffset <= pendingSize <= BUFFER_SIZE
      && session.config == settings.session
    }

    ghost function View(): Link
      reads this, session, pending
      requires Valid()
    {
      Link(settings, open, session.View(), started, pendingKind, pending[..pendingSize], pendingOffset,
           pendingTimestamp, pendingDeadline, nextHeartbeat, lastEstimateTime, sequence,
           measurementsSent, measurementsDropped, invalidFrames, cargo, wire, log)
    }

    constructor (settings: Settings)
      requires settings.Valid()
      ensures Valid() && fresh(session) && fresh(pending)
      ensures View() == Opened(settings)
    {
      this.settings := settings;
      session := new FlightSession(settings.session, settings.initialReset);
      pending := new Byte[BUFFER_SIZE](_ => 0);
      open, started, pendingKind := true, false, NoPending;
      pendingSize, pendingOffset, pendingTimestamp, pendingDeadline, nextHeartbeat := 0, 0, 0, 0, 0;
      lastEstimateTime, sequence := None, 0;
      measurementsSent, measurementsDropped, invalidFrames := 0, 0, 0;
      cargo, wire, log := [], [], [];
    }

    /** The constructor of the source, which throws (here: returns null) without a stream or on unusable settings. */
    static method Create(stream: bool, settings: Settings) returns (link: MavlinkLink?)
      ensures link == null <==> !stream || !settings.Valid()
      ensures link != null ==> fresh(link) && link.Valid() && link.View() == Opened(settings)
      ensures link != null ==> fresh(link.session) && fresh(link.pending)
    {
      var usable := FlightSession.Create(settings.session, settings.initialReset);
      if !stream || usable == null || settings.source.system == 0 || settings.source.component == 0 ||
         settings.controller.system == 0 || settings.controller.component == 0 ||
         settings.source == settings.controller {
        return null;
      }
      link := new MavlinkLink(settings);
    }

    method ClearPending()
      requires Valid()
      modifies this
      ensures Valid() && View() == old(LinkModel.ClearPending(View()))
    {
      pendingKind := NoPending;
      pendingSize := 0;
      pendingOffset := 0;
      cargo := [];
    }

    method Fail()
      requires Valid()
      modifies this, session
      ensures Valid() && View() == old(Close(View()))
    {
      session.Fail();
      ClearPending();
      open := false;
      log := log + [Closed];
    }

    method StartSession(generation: nat) returns (result: SessionStart)
      requires Valid()
      modifies this, session
      ensures Valid() && (View(), result) == old(LinkModel.StartSession(View(), generation))
    {
      if pendingOffset != 0 {
        Fail();
        return PartialTransmission;
      }
      var begun := session.Start(generation);
      if begun != Begun {
        return Refused(begun);
      }
      ClearPending();
      lastEstimateTime := None;
      started := true;
      log := log + [Began(generation)];
      result := Started;
    }

    method EndSession()
      requires Valid()
      modifies this, session
      ensures Valid() && View() == old(LinkModel.EndSession(View()))
    {
      started := false;
      if pendingOffset != 0 {
        Fail();
      } else {
        ClearPending();
      }
    }

    method Receive(m: Incoming, now: Time)
      requires Valid()
      modifies this, session
      ensures Valid() && View() == old(LinkModel.Receive(View(), m, now))
    {
      if m.sender != settings.controller {
        return;
      }
      match m {
        case HeartbeatMessage(_, ardupilot, groundStation, armed) =>
          if ardupilot && !groundStation {
            session.Heartbeat(armed, now);
            log := log + [Heard(m, armed, now)];
          }
        case AckMessage(_, auxiliary, targetSystem, targetComponent, acked) =>
          if !auxiliary || (targetSystem != 0 && targetSystem != settings.source.system) ||
             (targetComponent != 0 && targetComponent != settings.source.component) {
            return;
          }
          var result := Rejected;
          if acked == ResultAccepted {
            result := Accepted;
          } else if acked == ResultInProgress {
            result := InProgress;
          } else if acked == ResultTemporarilyRejected {
            result := Retry;
          }
          ghost var honoured := session.View().Honours(now);
          session.Acknowledge(result, now);
          log := log + [Replied(m, result, now, honoured)];
        case OtherMessage(_) =>
      }
    }

    method ReceiveAll(parsed: seq<Parsed>, now: Time)
      requires Valid()
      modifies this, session
      ensures Valid() && View() == old(LinkModel.ReceiveAll(View(), parsed, now))
    {
      ghost var start := View();
      assert parsed[..|parsed|] == parsed;
      for i := 0 to |parsed|
        invariant Valid() && View() == LinkModel.ReceiveAll(start, parsed[..i], now)
      {
        assert parsed[..i + 1][..i] == parsed[..i];
        match parsed[i] {
          case Received(message) => Receive(message, now);
          case Damaged => invalidFrames := invalidFrames + 1;
        }
      }
    }

    method Append(packet: Packet) returns (ok: bool)
      requires Valid()
      modifies this, pending
      ensures Valid() && (View(), ok) == old(LinkModel.Append(View(), packet))
    {
      ghost var before := pending[..pendingSize];
      var stamped := Stamped(packet, sequence);
      sequence := Increment(sequence);
      if pendingSize + MAX_PACKET > pending.Length {
        return false;
      }
      var frame: seq<Byte> := settings.codec(stamped);
      forall i | 0 <= i < |frame| {
        pending[pendingSize + i] := frame[i];
      }
      pendingSize := pendingSize + |frame|;
      assert pending[..pendingSize] == before + frame;
      cargo := cargo + [stamped];
      ok := true;
    }

    /** The end of `publish`: pack pose and velocity, and mark the buffer as a measurement. */
    method QueueMeasurement(e: Estimate, at: Coordinates, now: Time) returns (result: PublishResult)
      requires Valid() && 0 <= e.timestamp
      modifies this, pending
      ensures Valid() && (View(), result) == old(LinkModel.QueueMeasurement(View(), e, at, now))
    {
      hide LinkModel.Append, Microseconds;
      var usec := Microseconds(e.timestamp);
      var first := Append(Pose(usec, at.position, at.attitude, session.resetCounter));
      if !first {
        return PublishThrew;
      }
      if settings.sendVelocity {
        var second := Append(Speed(usec, at.velocity, session.resetCounter));
        if !second {
          return PublishThrew;
        }
      }
      pendingKind := MeasurementPending;
      pendingTimestamp := e.timestamp;
      pendingDeadline := now + (settings.session.maxEstimateAge - (now - e.timestamp));
      lastEstimateTime := Some(e.timestamp);
      result := Queued;
    }

    method Publish(e: Estimate, now: Time) returns (result: PublishResult)
      requires Valid()
      modifies this, session, pending
      ensures Valid() && (View(), result) == old(LinkModel.Publish(View(), e, now))
    {
      hide LinkModel.Consider;
      session.Tick(now);
      result := Consider(e, now);
      log := log + [Offered(e, now, result.Queued?)];
    }

    /** `publish` once the session has looked at the time: hold, reject or queue the estimate. */
    method Consider(e: Estimate, now: Time) returns (result: PublishResult)
      requires Valid()
      modifies this, pending
      ensures Valid() && (View(), result) == old(LinkModel.Consider(View(), e, now))
    {
      if !started || !open || !session.CanPublish(now) {
        return Held;
      }
      var verdict := Validate(e, session.generation.value, now, settings.session.maxEstimateAge);
      if verdict == None {
        return PublishThrew;
      }
      if verdict != Some(Acceptable) {
        return InvalidEstimate;
      }
      if lastEstimateTime.Some? && e.timestamp <= lastEstimateTime.value {
        return OutOfOrder;
      }
      if pendingKind != NoPending || session.AlignmentDue(now) || now >= nextHeartbeat {
        return Busy;
      }
      var at := settings.transform(e);
      if !FitsWire(at.position) || !FitsWire(at.velocity) || !FitsWire(at.attitude) {
        return InvalidEstimate;
      }
      result := QueueMeasurement(e, at, now);
    }

    method QueueAlignment(now: Time) returns (ok: bool)
      requires Valid()
      modifies this, pending
      ensures Valid() && (View(), ok) == old(LinkModel.QueueAlignment(View(), now))
    {
      ok := Append(Align(session.attempts % 256));
      if ok {
        pendingKind := AlignmentPending;
        pendingDeadline := now + settings.session.alignmentTimeout;
      }
    }

    method QueueHeartbeat(now: Time) returns (ok: bool)
      requires Valid()
      modifies this, pending
      ensures Valid() && (View(), ok) == old(LinkModel.QueueHeartbeat(View(), now))
    {
      ok := Append(Presence);
      if ok {
        pendingKind := HeartbeatPending;
        pendingDeadline := now + HEARTBEAT_PERIOD;
        nextHeartbeat := pendingDeadline;
      }
    }

    /** The middle of `poll`: never finish stale data, and never splice a new packet onto a partial one. */
    method Expire(now: Time)
      requires Valid()
      modifies this, session
      ensures Valid() && View() == old(LinkModel.Expire(View(), now))
    {
      var eligible := true;
      if pendingKind == MeasurementPending {
        eligible := session.CanPublish(now);
      } else if pendingKind == AlignmentPending {
        eligible := session.AlignmentDue(now);
      }
      if pendingKind != NoPending && (!eligible || now > pendingDeadline) {
        if pendingKind == MeasurementPending {
          measurementsDropped := measurementsDropped + 1;
        }
        if pendingOffset != 0 {
          Fail();
          return;
        }
        ClearPending();
      }
    }

    /** The stream has taken `count` more bytes. */
    method Advance(count: nat, now: Time)
      requires Valid() && pendingOffset + count <= pendingSize
      modifies this
      ensures Valid() && View() == old(LinkModel.Transmit(View(), count, now))
    {
      ghost var bytes := pending[..pendingSize];
      wire := wire + bytes[pendingOffset..pendingOffset + count];
      log := if count == 0 then log
             else log + [Wrote(pendingKind, pendingTimestamp, cargo, bytes, now, pendingOffset, count)];
      pendingOffset := pendingOffset + count;
    }

    /** A whole buffer is out: record it and let the session know. */
    method Conclude(now: Time) returns (ok: bool)
      requires Valid()
      modifies this, session
      ensures Valid() && (View(), ok) == old(LinkModel.Conclude(View(), now))
    {
      if pendingKind == MeasurementPending {
        measurementsSent := measurementsSent + 1;
        session.MeasurementSent(pendingTimestamp);
      } else if pendingKind == AlignmentPending {
        var sent := session.AlignmentSent(now);
        if !sent {
          return false;
        }
      }
      ClearPending();
      ok := true;
    }

    /** The end of `poll`: one nonblocking write, and what follows from a complete one. */
    method Offer(now: Time, write: WriteOutcome) returns (ok: bool)
      requires Valid()
      modifies this, session
      ensures Valid() && (View(), ok) == old(LinkModel.Offer(View(), now, write))
    {
      if write.WriteThrew? {
        Fail();
        return true;
      }
      var rest := pendingSize - pendingOffset;
      Advance(if write.willing <= rest then write.willing else rest, now);
      if pendingOffset != pendingSize {
        return true;
      }
      ok := Conclude(now);
    }

    /** The transmitting half of `poll`: refill a free buffer with due control traffic, then write. */
    method Send(now: Time, write: WriteOutcome) returns (ok: bool)
      requires Valid()
      modifies this, session, pending
      ensures Valid() && (View(), ok) == old(LinkModel.Send(View(), now, write))
    {
      if pendingKind == NoPending {
        ok := true;
        if started && session.AlignmentDue(now) {
          ok := QueueAlignment(now);
        } else if now >= nextHeartbeat {
          ok := QueueHeartbeat(now);
        }
        if !ok {
          return false;
        }
      }
      if pendingKind == NoPending {
        return true;
      }
      ok := Offer(now, write);
    }

    /** Service the connection once. The result is false where a `logic_error` would escape. */
    method Poll(now: Time, read: ReadOutcome, write: WriteOutcome) returns (ok: bool)
      requires Valid()
      modifies this, session, pending
      ensures Valid() && (View(), ok) == old(LinkModel.Poll(View(), now, read, write))
    {
      if !open {
        return true;
      }
      session.Tick(now);
      if read.ReadThrew? {
        Fail();
        return true;
      }
      ReceiveAll(read.parsed, now);
      if session.state == Failed {
        Fail();
        return true;
      }
      Expire(now);
      if !open || read.count == READ_BUDGET {
        return true;
      }
      ok := Send(now, write);
    }
  }
}
