/** The invariant of the link, and the proof that every call keeps it. */
module LinkProofs {
  import opened Basics
  import opened Estimates
  import opened Sessions
  import opened LinkModel
  import opened LinkHistory
  import opened SessionProofs

  // ---- the invariant

  /** The buffer starts afresh after a whole packet, or resumes exactly where the last write stopped. */
  ghost predicate PositionAgrees(l: Link) {
    var last := LastWrite(l.log);
    if l.offset == 0 then last.Some? ==> last.value.Completes()
    else last.Some? && last.value.offset + last.value.count == l.offset && last.value.bytes == l.bytes
         && last.value.kind == l.kind && last.value.cargo == l.cargo && last.value.timestamp == l.timestamp
  }

  ghost predicate CargoAgrees(l: Link) {
    match l.kind
    case NoPending => l.cargo == [] && l.bytes == []
    case MeasurementPending =>
      && l.session.generation.Some? && l.lastEstimate == Some(l.timestamp)
      && l.deadline == l.timestamp + l.settings.session.maxEstimateAge
      && LastQueued(l.log).Some? && LastQueued(l.log).value.timestamp == l.timestamp >= 0
      && MeasurementCargo(l.settings, l.cargo, LastQueued(l.log).value, l.session.resetCounter)
      && Follows(l.log, l.timestamp, l.offset)
    case AlignmentPending =>
      && (l.session.state.WaitingForController? || l.session.state.Priming? || l.session.state.Failed?)
      && |l.cargo| == 1 && l.cargo[0].packet.Align?
      && (!l.session.state.Failed? ==> l.cargo[0].packet.confirmation == l.session.attempts)
    case HeartbeatPending => |l.cargo| == 1 && l.cargo[0].packet == Presence
  }

  ghost predicate BufferAgrees(l: Link) {
    && (if l.kind.NoPending? then l.offset == 0 else l.offset < |l.bytes|)
    && |l.bytes| <= BUFFER_SIZE
    && l.bytes == Encode(l.settings.codec, l.cargo)
    && CargoAgrees(l)
  }

  /** No measurement of this generation on the wire is newer than the last one accepted for sending. */
  ghost predicate OrderAgrees(log: seq<Event>, last: Option<Time>) {
    forall j :: 0 <= j < |log| && log[j].Wrote? && log[j].kind.MeasurementPending? && SameGeneration(log, j) ==>
      last.Some? && log[j].timestamp <= last.value
  }

  /** A closed link has failed for good and holds nothing; an open one agrees with its log in every part. */
  ghost predicate Inv(l: Link) {
    match l.open
    case true => Recorded(l) && PositionAgrees(l) && Closed !in l.log
    case false => Recorded(l) && l.session.state.Failed? && l.kind.NoPending? && Closed in l.log
  }

  ghost predicate Recorded(l: Link) {
    && Lawful(l.settings, l.log)
    && Agrees(l.settings, l.session, l.log)
    && WireBytes(l.log) == l.wire
    && BufferAgrees(l)
    && OrderAgrees(l.log, l.lastEstimate)
    && l.lastEstimate == StampOf(LastQueued(l.log))
  }

  function StampOf(e: Option<Estimate>): Option<Time> {
    if e.None? then None else Some(e.value.timestamp)
  }

  lemma BufferFits(l: Link)
    requires Inv(l)
    ensures l.offset <= |l.bytes|
  {
  }

  lemma OpenedHolds(settings: Settings)
    requires settings.Valid()
    ensures Inv(Opened(settings))
  {
  }

  // ---- what survives one more event

  /** A write is of this generation after an event only if it was before. */
  lemma SnocKeepsSameGeneration(log: seq<Event>, e: Event)
    ensures forall j: nat :: j < |log| && SameGeneration(log + [e], j) ==> SameGeneration(log, j)
    ensures e.Began? ==> forall j: nat :: j <= |log| ==> !SameGeneration(log + [e], j)
  {
    SnocPrefixes(log, e);
    forall j: nat | j < |log| && SameGeneration(log + [e], j)
      ensures SameGeneration(log, j)
    {
      forall i | j <= i < |log|
        ensures !log[i].Began?
      {
        assert !(log + [e])[i].Began?;
      }
    }
    assert (log + [e])[|log|] == e;
  }

  lemma SnocKeepsFollows(log: seq<Event>, e: Event, timestamp: Time, offset: nat)
    requires Follows(log, timestamp, offset) && !e.Wrote?
    ensures Follows(log + [e], timestamp, offset)
  {
    SnocPrefixes(log, e);
    SnocKeepsSameGeneration(log, e);
  }

  lemma SnocKeepsOrder(log: seq<Event>, e: Event, last: Option<Time>)
    requires OrderAgrees(log, last) && !e.Wrote?
    ensures OrderAgrees(log + [e], last)
  {
    SnocPrefixes(log, e);
    SnocKeepsSameGeneration(log, e);
  }

  /** A new generation has nothing on the wire yet. */
  lemma BeganClearsOrder(log: seq<Event>, generation: nat)
    ensures OrderAgrees(log + [Began(generation)], None)
  {
    SnocPrefixes(log, Began(generation));
    SnocKeepsSameGeneration(log, Began(generation));
  }

  lemma SnocWire(log: seq<Event>, e: Event)
    ensures WireBytes(log + [e])
            == WireBytes(log) + (if e.Wrote? && e.offset + e.count <= |e.bytes|
                                 then e.bytes[e.offset..e.offset + e.count] else [])
    ensures Closed in log + [e] <==> Closed in log || e.Closed?
  {
    Snoc(log, e);
    assert (log + [e])[|log|] == e;
  }

  // ---- reception

  /** Hearing something keeps the invariant once the session agrees with the longer log. */
  lemma QuietEvent(l: Link, e: Event, v: Session)
    requires Inv(l) && (e.Heard? || e.Replied? || (e.Offered? && !e.queued)) && EventRule(l.settings, l.log, e)
    requires Agrees(l.settings, v, l.log + [e]) && Listened(l.session, v)
    ensures Inv(l.(session := v, log := l.log + [e]))
  {
    SnocLawful(l.settings, l.log, e);
    Snoc(l.log, e);
    SnocWire(l.log, e);
    SnocKeepsOrder(l.log, e, l.lastEstimate);
    if Follows(l.log, l.timestamp, l.offset) {
      SnocKeepsFollows(l.log, e, l.timestamp, l.offset);
    }
  }

  lemma TickHolds(l: Link, now: Time)
    requires Inv(l)
    ensures Inv(l.(session := l.session.Tick(now)))
  {
    TickAgrees(l.settings, l.session, l.log, now);
    TickListens(l.session, now);
  }

  lemma HearHolds(l: Link, m: Incoming, armed: bool, now: Time)
    requires Inv(l) && l.open && m == HeartbeatMessage(l.settings.controller, true, false, armed)
    ensures Inv(Hear(l, m, armed, now))
  {
    var e := Heard(m, armed, now);
    HeartbeatKeepsAgreement(l.settings, l.session, l.log, e);
    HeartbeatListens(l.session, armed, now);
    QuietEvent(l, e, l.session.Heartbeat(armed, now));
  }

  lemma ReplyHolds(l: Link, m: Incoming, result: AlignmentResult, now: Time)
    requires Inv(l) && l.open && Answers(l.settings, m) && Says(m, result)
    ensures Inv(Reply(l, m, result, now))
  {
    var e := Replied(m, result, now, l.session.Honours(now));
    ReplyKeepsAgreement(l.settings, l.session, l.log, e);
    AcknowledgeListens(l.session, result, now);
    QuietEvent(l, e, l.session.Acknowledge(result, now));
  }

  lemma ReceiveOneHolds(l: Link, p: Parsed, now: Time)
    requires Inv(l) && l.open
    ensures Inv(ReceiveOne(l, p, now))
    ensures var r := ReceiveOne(l, p, now);
            r.open && r.settings == l.settings && r.started == l.started
  {
    if p.Received? && p.message.sender == l.settings.controller {
      match p.message {
        case HeartbeatMessage(_, ardupilot, groundStation, armed) =>
          if ardupilot && !groundStation {
            HearHolds(l, p.message, armed, now);
          }
        case AckMessage(_, _, _, _, _) =>
          var reply := ReplyFor(l.settings, p.message);
          if reply.Some? {
            ReplyHolds(l, p.message, reply.value, now);
          }
        case OtherMessage(_) =>
      }
    }
  }

  lemma {:induction false} ReceiveAllHolds(l: Link, parsed: seq<Parsed>, now: Time)
    requires Inv(l) && l.open
    ensures Inv(ReceiveAll(l, parsed, now))
    ensures var r := ReceiveAll(l, parsed, now);
            r.open && r.settings == l.settings && r.started == l.started
  {
    if parsed == [] {
    } else {
      ReceiveAllHolds(l, parsed[..|parsed| - 1], now);
      ReceiveOneHolds(ReceiveAll(l, parsed[..|parsed| - 1], now), parsed[|parsed| - 1], now);
    }
  }

  // ---- closing, clearing, starting

  lemma CloseHolds(l: Link)
    requires Inv(l) && l.open
    ensures Inv(Close(l))
  {
    FailureKeepsAgreement(l.settings, l.session, l.log);
    SnocLawful(l.settings, l.log, Closed);
    SnocWire(l.log, Closed);
    SnocKeepsOrder(l.log, Closed, l.lastEstimate);
  }

  lemma ClearHolds(l: Link)
    requires Inv(l) && l.offset == 0
    ensures Inv(ClearPending(l))
  {
  }

  lemma StartHolds(l: Link, generation: nat)
    requires Inv(l)
    ensures Inv(StartSession(l, generation).0)
  {
    if l.offset != 0 {
      CloseHolds(l);
    } else if l.session.Start(generation).1.Begun? {
      hide Inv;
      BeginHolds(l, generation);
    }
  }

  lemma BeginHolds(l: Link, generation: nat)
    requires Inv(l) && l.offset == 0 && l.session.Start(generation).1.Begun?
    ensures Inv(ClearPending(l).(session := l.session.Start(generation).0, lastEstimate := None, started := true,
                                 log := l.log + [Began(generation)]))
  {
    var e := Began(generation);
    StartKeepsAgreement(l.settings, l.session, l.log, generation);
    BeginIsLawful(l, generation);
    Snoc(l.log, e);
    SnocWire(l.log, e);
    BeganClearsOrder(l.log, generation);
    hide Lawful, WireBytes, OrderAgrees, Agrees, Session.Start, LastGeneration, Unresolved;
  }

  lemma BeginIsLawful(l: Link, generation: nat)
    requires Inv(l) && l.offset == 0 && l.session.Start(generation).1.Begun?
    ensures l.open && Lawful(l.settings, l.log + [Began(generation)])
  {
    hide WireBytes, OrderAgrees, Follows;
    StartKeepsAgreement(l.settings, l.session, l.log, generation);
    SnocLawful(l.settings, l.log, Began(generation));
  }

  lemma EndHolds(l: Link)
    requires Inv(l)
    ensures Inv(EndSession(l))
  {
    var ended := l.(started := false);
    assert Inv(ended);
    if l.offset != 0 {
      CloseHolds(ended);
    } else {
      ClearHolds(ended);
    }
  }

  // ---- queueing

  lemma EncodeSnoc(codec: Codec, cargo: seq<Stamped>, next: Stamped)
    ensures Encode(codec, cargo + [next]) == Encode(codec, cargo) + codec(next)
  {
    assert (cargo + [next])[..|cargo|] == cargo;
  }

  /** With half the buffer free one packet always fits behind those already there. */
  lemma AppendFits(l: Link, packet: Packet)
    requires |l.bytes| <= MAX_PACKET && l.bytes == Encode(l.settings.codec, l.cargo)
    ensures var stamped := Stamped(packet, l.sequence);
            var bytes := l.bytes + l.settings.codec(stamped);
            && Append(l, packet)
               == (l.(bytes := bytes, cargo := l.cargo + [stamped], sequence := Increment(l.sequence)), true)
            && |l.bytes| < |bytes| <= |l.bytes| + MAX_PACKET
            && bytes == Encode(l.settings.codec, l.cargo + [stamped])
  {
    EncodeSnoc(l.settings.codec, l.cargo, Stamped(packet, l.sequence));
  }

  /** A measurement always fits the free buffer, as one pose and, where configured, one velocity. */
  lemma MeasurementFits(l: Link, e: Estimate, at: Coordinates, now: Time)
    requires 0 <= e.timestamp && l.bytes == [] && l.cargo == []
    ensures var (r, result) := QueueMeasurement(l, e, at, now);
            && result.Queued?
            && r == l.(kind := MeasurementPending, timestamp := e.timestamp, bytes := r.bytes, cargo := r.cargo,
                       sequence := r.sequence, lastEstimate := Some(e.timestamp),
                       deadline := e.timestamp + l.settings.session.maxEstimateAge)
            && 0 < |r.bytes| <= BUFFER_SIZE && r.bytes == Encode(l.settings.codec, r.cargo)
            && (at == l.settings.transform(e) ==>
                  MeasurementCargo(l.settings, r.cargo, e, l.session.resetCounter))
  {
    var usec := Microseconds(e.timestamp);
    assert Stamps(usec, e.timestamp);
    var pose := Pose(usec, at.position, at.attitude, l.session.resetCounter);
    var speed := Speed(usec, at.velocity, l.session.resetCounter);
    AppendFits(l, pose);
    var posed := Append(l, pose).0;
    assert posed.cargo == [Stamped(pose, l.sequence)];
    if l.settings.sendVelocity {
      AppendFits(posed, speed);
      assert Append(posed, speed).0.cargo
             == [Stamped(pose, l.sequence), Stamped(speed, Increment(l.sequence))];
    }
  }

  /** A queued offer obeys its rule. */
  lemma OfferIsLawful(l: Link, e: Estimate, now: Time)
    requires Inv(l)
    ensures EventRule(l.settings, l.log, Offered(e, now, Consider(l, e, now).1.Queued?))
  {
    if Consider(l, e, now).1.Queued? {
      FreshAgrees(l.settings, l.session, l.log, now);
      assert Permitted(l.settings, l.log, now);
      assert Presentable(l.settings, l.log, e, now);
    }
  }

  lemma OfferGoesOnRecord(l: Link, e: Estimate, now: Time)
    requires Inv(l) && Consider(l, e, now).1.Queued?
    ensures var log := l.log + [Offered(e, now, true)];
            && Lawful(l.settings, log) && Agrees(l.settings, l.session, log) && WireBytes(log) == l.wire
            && LastWrite(log) == LastWrite(l.log) && LastQueued(log) == Some(e)
            && (Closed in log <==> Closed in l.log)
  {
    hide Consider, Agrees;
    var offer := Offered(e, now, true);
    OfferIsLawful(l, e, now);
    OfferKeepsAgreement(l.settings, l.session, l.log, offer);
    SnocLawful(l.settings, l.log, offer);
    Snoc(l.log, offer);
    SnocWire(l.log, offer);
  }

  lemma OfferKeepsOrder(l: Link, e: Estimate, now: Time)
    requires Inv(l) && (l.lastEstimate.Some? ==> l.lastEstimate.value < e.timestamp)
    ensures var log := l.log + [Offered(e, now, true)];
            OrderAgrees(log, Some(e.timestamp)) && Follows(log, e.timestamp, 0)
  {
    var offer := Offered(e, now, true);
    assert Follows(l.log, e.timestamp, 0) && OrderAgrees(l.log, Some(e.timestamp));
    SnocKeepsOrder(l.log, offer, Some(e.timestamp));
    SnocKeepsFollows(l.log, offer, e.timestamp, 0);
  }

  /** A new estimate takes the free buffer and is the last one queued. */
  lemma QueueMeasurementHolds(l: Link, e: Estimate, now: Time)
    requires Inv(l) && Consider(l, e, now).1.Queued?
    ensures var q := Consider(l, e, now).0; Inv(q.(log := q.log + [Offered(e, now, true)]))
  {
    OfferGoesOnRecord(l, e, now);
    OfferKeepsOrder(l, e, now);
    hide Lawful, Agrees, WireBytes, LastQueued, LastWrite, OrderAgrees, Follows, Encode, MeasurementCargo, FitsWire;
    MeasurementFits(l, e, l.settings.transform(e), now);
    hide QueueMeasurement;
  }

  /** Any other offer only goes on record. */
  lemma DeclinedHolds(l: Link, e: Estimate, now: Time)
    requires Inv(l)
    ensures Inv(l.(log := l.log + [Offered(e, now, false)]))
  {
    var offer := Offered(e, now, false);
    OfferKeepsAgreement(l.settings, l.session, l.log, offer);
    QuietEvent(l, offer, l.session);
  }

  lemma ConsiderOutcome(l: Link, e: Estimate, now: Time)
    requires Inv(l)
    ensures var (r, result) := Consider(l, e, now);
            && (!result.Queued? && !result.PublishThrew? ==> r == l)
            && (result.PublishThrew? ==> now < 0 && r == l)
  {
    if 0 <= e.timestamp && l.kind.NoPending? {
      MeasurementFits(l, e, l.settings.transform(e), now);
    }
  }

  /** A publication looks at the time, and puts the offer on record. */
  lemma PublishOnlyOffers(l: Link, e: Estimate, now: Time)
    ensures var (r, result) := Publish(l, e, now);
            && r.session == l.session.Tick(now) && r.wire == l.wire && r.settings == l.settings && r.open == l.open
            && r.started == l.started && r.nextHeartbeat == l.nextHeartbeat
            && r.log == l.log + [Offered(e, now, result.Queued?)]
  {
  }

  lemma PublishHolds(l: Link, e: Estimate, now: Time)
    requires Inv(l)
    ensures Inv(Publish(l, e, now).0)
    ensures Publish(l, e, now).1.PublishThrew? ==> now < 0
  {
    hide Inv, Consider;
    TickHolds(l, now);
    var ticked := l.(session := l.session.Tick(now));
    ConsiderOutcome(ticked, e, now);
    if Consider(ticked, e, now).1.Queued? {
      QueueMeasurementHolds(ticked, e, now);
    } else {
      DeclinedHolds(ticked, e, now);
    }
  }

  lemma QueueAlignmentHolds(l: Link, now: Time)
    requires Inv(l) && l.open && l.kind.NoPending? && l.session.AlignmentDue(now)
    ensures QueueAlignment(l, now).1 && Inv(QueueAlignment(l, now).0)
  {
    AppendFits(l, Align(l.session.attempts % 256));
  }

  lemma QueueHeartbeatHolds(l: Link, now: Time)
    requires Inv(l) && l.open && l.kind.NoPending?
    ensures QueueHeartbeat(l, now).1 && Inv(QueueHeartbeat(l, now).0)
  {
    AppendFits(l, Presence);
  }

  /** The buffer may stay as it is at `now`: it is free, or its data is permitted and in time. */
  predicate Current(l: Link, now: Time) {
    l.kind.NoPending? || (Eligible(l, now) && now <= l.deadline)
  }

  lemma FillIsCurrent(l: Link, now: Time)
    requires Current(l, now) && l.settings.Valid()
    ensures var r := Fill(l, now).0;
            && r.open == l.open && r.session == l.session && r.settings == l.settings
            && (Fill(l, now).1 ==> Current(r, now))
            && (!l.kind.NoPending? ==> r == l)
  {
  }

  lemma FillHolds(l: Link, now: Time)
    requires Inv(l) && l.open && Current(l, now)
    ensures Fill(l, now).1 && Inv(Fill(l, now).0)
  {
    if l.kind.NoPending? {
      if l.started && l.session.AlignmentDue(now) {
        QueueAlignmentHolds(l, now);
      } else if now >= l.nextHeartbeat {
        QueueHeartbeatHolds(l, now);
      }
    }
  }

  // ---- servicing

  lemma ExpireHolds(l: Link, now: Time)
    requires Inv(l) && l.open
    ensures Inv(Expire(l, now))
    ensures var r := Expire(l, now);
            r.open ==> r.session == l.session && Current(r, now)
  {
    if !l.kind.NoPending? && !(Eligible(l, now) && now <= l.deadline) {
      var counted := if l.kind.MeasurementPending? then l.(dropped := l.dropped + 1) else l;
      assert Inv(counted);
      if l.offset != 0 {
        CloseHolds(counted);
      } else {
        ClearHolds(counted);
      }
    }
  }

  /** The event logged for the next `count` bytes. */
  function WriteEvent(l: Link, count: nat, now: Time): Event {
    Wrote(l.kind, l.timestamp, l.cargo, l.bytes, now, l.offset, count)
  }

  /** The buffer may be written at `now`: what `poll` has checked by the time it calls the stream. */
  ghost predicate Writable(l: Link, now: Time) {
    Inv(l) && l.open && !l.session.state.Failed? && !l.kind.NoPending? && Current(l, now)
  }

  lemma WriteIsLawful(l: Link, count: nat, now: Time)
    requires Writable(l, now) && 0 < count <= |l.bytes| - l.offset
    ensures EventRule(l.settings, l.log, WriteEvent(l, count, now))
  {
    var e := WriteEvent(l, count, now);
    FreshAgrees(l.settings, l.session, l.log, now);
    assert Continues(l.log, e);
    if l.kind.MeasurementPending? {
      assert MeasurementRule(l.settings, l.log, e);
    } else if l.kind.AlignmentPending? {
      assert AlignmentRule(l.settings, l.log, e);
    }
  }

  lemma WriteKeepsLaw(l: Link, count: nat, now: Time)
    requires Writable(l, now) && 0 < count <= |l.bytes| - l.offset
    ensures Lawful(l.settings, l.log + [WriteEvent(l, count, now)])
  {
    WriteIsLawful(l, count, now);
    SnocLawful(l.settings, l.log, WriteEvent(l, count, now));
  }

  lemma WriteReachesTheWire(l: Link, count: nat, now: Time)
    requires WireBytes(l.log) == l.wire && 0 < count && l.offset + count <= |l.bytes|
    ensures var moved := Transmit(l, count, now);
            && moved.log == l.log + [WriteEvent(l, count, now)]
            && WireBytes(moved.log) == moved.wire && (Closed in moved.log <==> Closed in l.log)
            && LastWrite(moved.log) == Some(WriteEvent(l, count, now))
  {
    SnocWire(l.log, WriteEvent(l, count, now));
    Snoc(l.log, WriteEvent(l, count, now));
  }

  lemma WriteKeepsOrder(l: Link, count: nat, now: Time)
    requires Writable(l, now) && 0 < count <= |l.bytes| - l.offset
    ensures var moved := Transmit(l, count, now);
            && OrderAgrees(moved.log, moved.lastEstimate)
            && (l.kind.MeasurementPending? ==> Follows(moved.log, l.timestamp, moved.offset))
  {
    var e := WriteEvent(l, count, now);
    SnocPrefixes(l.log, e);
    SnocKeepsSameGeneration(l.log, e);
  }

  lemma WriteKeepsBuffer(l: Link, count: nat, now: Time)
    requires Writable(l, now) && 0 < count < |l.bytes| - l.offset
    ensures BufferAgrees(Transmit(l, count, now)) && PositionAgrees(Transmit(l, count, now))
  {
    WriteReachesTheWire(l, count, now);
    if l.kind.MeasurementPending? {
      WriteKeepsOrder(l, count, now);
    }
  }

  lemma NothingWritten(l: Link, now: Time)
    requires l.offset <= |l.bytes|
    ensures Transmit(l, 0, now) == l
  {
    assert l.wire + l.bytes[l.offset..l.offset] == l.wire;
  }

  lemma TransmitHolds(l: Link, count: nat, now: Time)
    requires Writable(l, now) && 0 < count < |l.bytes| - l.offset
    ensures Inv(Transmit(l, count, now))
  {
    WriteKeepsLaw(l, count, now);
    WriteReachesTheWire(l, count, now);
    WriteKeepsOrder(l, count, now);
    WriteKeepsBuffer(l, count, now);
    WriteKeepsAgreement(l.settings, l.session, l.log, WriteEvent(l, count, now));
  }

  /** After the last byte the buffer is free, whatever the session then is, if it agrees with the log. */
  lemma FreedHolds(l: Link, now: Time, v: Session, sent: nat)
    requires Writable(l, now)
    requires var moved := Transmit(l, |l.bytes| - l.offset, now);
             Agrees(l.settings, v, moved.log)
    ensures Inv(ClearPending(Transmit(l, |l.bytes| - l.offset, now).(session := v, sent := sent)))
  {
    hide Lawful, Agrees, WireBytes, OrderAgrees, SameGeneration, Follows;
    WriteKeepsLaw(l, |l.bytes| - l.offset, now);
    WriteReachesTheWire(l, |l.bytes| - l.offset, now);
    WriteKeepsOrder(l, |l.bytes| - l.offset, now);
  }

  lemma ConcludeHolds(l: Link, now: Time)
    requires Writable(l, now)
    ensures Conclude(Transmit(l, |l.bytes| - l.offset, now), now).1
    ensures Inv(Conclude(Transmit(l, |l.bytes| - l.offset, now), now).0)
  {
    var e := WriteEvent(l, |l.bytes| - l.offset, now);
    match l.kind {
      case MeasurementPending =>
        MeasurementKeepsAgreement(l.settings, l.session, l.log, e);
        FreedHolds(l, now, l.session.MeasurementSent(l.timestamp), l.sent + 1);
      case AlignmentPending =>
        AlignmentKeepsAgreement(l.settings, l.session, l.log, e);
        FreedHolds(l, now, l.session.AlignmentSent(now).0, l.sent);
      case HeartbeatPending =>
        WriteKeepsAgreement(l.settings, l.session, l.log, e);
        FreedHolds(l, now, l.session, l.sent);
    }
  }

  /** An offer the stream does not refuse ends in the middle of the buffer, or at its end. */
  lemma OfferOutcome(l: Link, now: Time, willing: nat)
    requires l.offset < |l.bytes|
    ensures Offer(l, now, Willing(willing))
            == if willing < |l.bytes| - l.offset then (Transmit(l, willing, now), true)
               else Conclude(Transmit(l, |l.bytes| - l.offset, now), now)
  {
  }

  lemma OfferHolds(l: Link, now: Time, willing: nat)
    requires Writable(l, now)
    ensures Offer(l, now, Willing(willing)).1 && Inv(Offer(l, now, Willing(willing)).0)
  {
    OfferOutcome(l, now, willing);
    var r := Offer(l, now, Willing(willing));
    if willing == 0 {
      NothingWritten(l, now);
    } else if willing < |l.bytes| - l.offset {
      TransmitHolds(l, willing, now);
      assert r.0 == Transmit(l, willing, now);
    } else {
      ConcludeHolds(l, now);
    }
  }

  lemma SendHolds(l: Link, now: Time, write: WriteOutcome)
    requires Inv(l) && l.open && !l.session.state.Failed? && Current(l, now)
    ensures Send(l, now, write).1 && Inv(Send(l, now, write).0)
  {
    FillHolds(l, now);
    FillIsCurrent(l, now);
    var filled := Fill(l, now).0;
    if !filled.kind.NoPending? {
      match write {
        case WriteThrew => CloseHolds(filled);
        case Willing(willing) => OfferHolds(filled, now, willing);
      }
    }
  }

  lemma PollHolds(l: Link, now: Time, read: ReadOutcome, write: WriteOutcome)
    requires Inv(l)
    ensures var (r, ok) := Poll(l, now, read, write); ok && Inv(r)
  {
    hide Inv, Current, ReceiveAll, Send, Expire;
    if l.open {
      TickHolds(l, now);
      var ticked := l.(session := l.session.Tick(now));
      if read.ReadThrew? {
        CloseHolds(ticked);
      } else {
        ReceiveAllHolds(ticked, read.parsed, now);
        var heard := ReceiveAll(ticked, read.parsed, now);
        if heard.session.state.Failed? {
          CloseHolds(heard);
        } else {
          ExpireHolds(heard, now);
          var kept := Expire(heard, now);
          if kept.open && read.count != READ_BUDGET {
            SendHolds(kept, now, write);
          }
        }
      }
    }
  }
}
