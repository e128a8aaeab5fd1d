/** Whole scenes of a link, for every configuration: it aligns, serves an armed vehicle, or is cut off. */
module LinkScenes {
  import opened Basics
  import opened Estimates
  import opened Sessions
  import opened LinkModel
  import opened LinkHistory
  import opened SessionProofs
  import opened LinkProofs
  import opened LinkTheorems

  const ORIGIN := Coordinates(Vec3(0.0, 0.0, 0.0), Vec3(0.0, 0.0, 0.0), Vec3(0.0, 0.0, 0.0))

  /** Any link configuration, for a vehicle at the origin. */
  function AtOrigin(settings: Settings): Settings {
    settings.(transform := _ => ORIGIN)
  }

  function Snapshot(timestamp: Time): Estimate {
    Estimate(timestamp, 1, true, true, ORIGIN.position, ORIGIN.velocity, Quaternion(1.0, 0.0, 0.0, 0.0))
  }

  /** Start, hear a disarmed controller, send a measurement and an alignment command, and have it accepted. */
  function Aligning(settings: Settings): seq<Action> {
    [Start(1), HearDisarmed(settings), Offering(Snapshot(0), 1), WRITE_ALL, WRITE_ALL, HearAccepted(settings)]
  }

  /** Then lose the stream while the next measurement is written. */
  function CutOff(settings: Settings): seq<Action> {
    Aligning(settings) + [Offering(Snapshot(1), 1)] + [Service(1, Read(0, []), WriteThrew)]
  }

  /** Or hear that the vehicle has armed, and write the next measurement all the same. */
  function Flying(settings: Settings): seq<Action> {
    Aligning(settings) + [HearArmed(settings)] + [Offering(Snapshot(1), 1)] + [WRITE_ALL]
  }

  function HearArmed(settings: Settings): Action {
    Service(1, Read(1, [Received(HeartbeatMessage(settings.controller, true, false, true))]), Willing(BUFFER_SIZE))
  }

  const WRITE_ALL := Service(1, Read(0, []), Willing(BUFFER_SIZE))

  function HearDisarmed(settings: Settings): Action {
    Service(1, Read(1, [Received(HeartbeatMessage(settings.controller, true, false, false))]), Willing(BUFFER_SIZE))
  }

  function HearAccepted(settings: Settings): Action {
    Service(1, Read(1, [Received(AckMessage(settings.controller, true, 0, 0, ResultAccepted))]), Willing(BUFFER_SIZE))
  }

  /** A started link with a free buffer, our own heartbeat not due, in this session and with this many commands open. */
  ghost predicate Idle(l: Link, v: Session, open: nat) {
    && l.open && l.started && l.kind.NoPending? && l.bytes == [] && l.offset == 0 && l.cargo == []
    && l.nextHeartbeat > 1 && l.session == v && Unresolved(l.log) == open
  }

  ghost predicate Loaded(l: Link, v: Session, open: nat, timestamp: Time) {
    && l.open && l.started && l.kind.MeasurementPending? && 0 < |l.bytes| <= BUFFER_SIZE && l.offset == 0
    && l.timestamp == timestamp && l.deadline >= 1 && l.lastEstimate == Some(timestamp)
    && l.nextHeartbeat > 1 && l.session == v && Unresolved(l.log) == open
  }

  /** The session as it stands at time 1 in each stage of `Aligning`. */
  function SessionAt(s: Settings, state: SessionState, measured: Option<Time>, attempts: nat): Session {
    Session(s.session, state, Some(1), Some(1), measured, if attempts == 0 then 0 else 1, 0, false, false, attempts,
            s.initialReset)
  }

  lemma ReceivingOne(l: Link, p: Parsed, now: Time)
    ensures ReceiveAll(l, [p], now) == ReceiveOne(l, p, now)
    ensures ReceiveAll(l, [], now) == l
  {
    assert [p][..0] == [];
    assert ReceiveAll(l, [p][..0], now) == l;
  }

  lemma HearingDisarmed(s: Settings)
    requires s.Valid()
    ensures var l := Poll(StartSession(Opened(s), 1).0, 1, HearDisarmed(s).read, Willing(BUFFER_SIZE)).0;
            Idle(l, SessionAt(s, Priming, None, 0), 0) && l.lastEstimate.None? && l.settings == s
  {
    var l := StartSession(Opened(s), 1).0;
    var p := Received(HeartbeatMessage(s.controller, true, false, false));
    ReceivingOne(l.(session := l.session.Tick(1)), p, 1);
    Snoc(Opened(s).log, Began(1));
    Snoc(l.log, Heard(p.message, false, 1));
    var heard := Hear(l.(session := l.session.Tick(1)), p.message, false, 1);
    assert heard.session == SessionAt(s, Priming, None, 0);
    var filled := QueueHeartbeat(heard, 1).0;
    assert Fill(heard, 1) == (filled, true);
    var moved := Transmit(filled, |filled.bytes|, 1);
    Snoc(filled.log, WriteEvent(filled, |filled.bytes|, 1));
  }

  /** Nothing arrives and nothing expires: the poll only writes. */
  lemma PollOnlySends(l: Link, v: Session, write: WriteOutcome)
    requires l.open && l.session == v && v.Tick(1) == v && !v.state.Failed? && l.offset <= |l.bytes|
    requires l.kind.NoPending? || (Eligible(l, 1) && 1 <= l.deadline)
    ensures Poll(l, 1, Read(0, []), write) == Send(l, 1, write)
  {
    hide Send;
    assert l.(session := v) == l;
  }

  lemma SendsItAll(l: Link)
    requires !l.kind.NoPending? && l.offset == 0 && |l.bytes| <= BUFFER_SIZE
    ensures Send(l, 1, Willing(BUFFER_SIZE)) == Conclude(Transmit(l, |l.bytes|, 1), 1)
  {
    hide Conclude, Transmit;
    assert Transmit(l, |l.bytes|, 1).offset == |Transmit(l, |l.bytes|, 1).bytes| by {
      SizeOfTransmit(l);
    }
  }

  lemma SizeOfTransmit(l: Link)
    requires l.offset == 0
    ensures Transmit(l, |l.bytes|, 1).offset == |Transmit(l, |l.bytes|, 1).bytes|
  {
  }

  /** Session one at time 1, with a controller heard just now that is disarmed or has accepted the alignment. */
  predicate Heeded(s: Settings, v: Session) {
    && s.Valid() && v.config == s.session && v.generation == Some(1) && v.heartbeatTime == Some(1)
    && ((v.state.Priming? && !v.armed) || v.state.Aligned?)
  }

  lemma Publishing(l: Link, v: Session, open: nat, timestamp: Time)
    requires Heeded(l.settings, v) && Idle(l, v, open) && 0 <= timestamp <= 1
    requires forall e :: l.settings.transform(e) == ORIGIN
    requires l.lastEstimate.Some? ==> l.lastEstimate.value < timestamp
    requires v.measurementTime.None? || v.state.Aligned?
    ensures var r := Publish(l, Snapshot(timestamp), 1).0;
            && Loaded(r, v, open, timestamp) && r.settings == l.settings
            && r.log == l.log + [Offered(Snapshot(timestamp), 1, true)]
  {
    assert v.Tick(1) == v && l.(session := v) == l;
    Considering(l, v, open, timestamp);
    Snoc(l.log, Offered(Snapshot(timestamp), 1, true));
    hide Consider;
  }

  lemma Considering(l: Link, v: Session, open: nat, timestamp: Time)
    requires Heeded(l.settings, v) && Idle(l, v, open) && 0 <= timestamp <= 1
    requires forall e :: l.settings.transform(e) == ORIGIN
    requires l.lastEstimate.Some? ==> l.lastEstimate.value < timestamp
    requires v.measurementTime.None? || v.state.Aligned?
    ensures var (r, result) := Consider(l, Snapshot(timestamp), 1);
            result.Queued? && Loaded(r, v, open, timestamp) && r.settings == l.settings && r.log == l.log
  {
    hide MeasurementCargo, Encode, Unresolved;
    MeasurementFits(l, Snapshot(timestamp), ORIGIN, 1);
    hide QueueMeasurement;
  }

  lemma SendingMeasurement(l: Link, v: Session, open: nat, timestamp: Time)
    requires Heeded(l.settings, v) && Loaded(l, v, open, timestamp)
    ensures var r := Poll(l, 1, Read(0, []), Willing(BUFFER_SIZE)).0;
            && Idle(r, v.MeasurementSent(timestamp), open) && r.settings == l.settings
            && r.lastEstimate == Some(timestamp) && r.log == l.log + [WriteEvent(l, |l.bytes|, 1)]
  {
    hide Poll, Send, Conclude, Transmit;
    assert v.Tick(1) == v && Eligible(l, 1);
    PollOnlySends(l, v, Willing(BUFFER_SIZE));
    SendsItAll(l);
    MeasurementIsOut(l, v, open, timestamp);
  }

  lemma MeasurementIsOut(l: Link, v: Session, open: nat, timestamp: Time)
    requires Loaded(l, v, open, timestamp)
    ensures var r := Conclude(Transmit(l, |l.bytes|, 1), 1).0;
            && Idle(r, v.MeasurementSent(timestamp), open) && r.settings == l.settings
            && r.lastEstimate == Some(timestamp) && r.log == l.log + [WriteEvent(l, |l.bytes|, 1)]
  {
    Snoc(l.log, WriteEvent(l, |l.bytes|, 1));
  }

  lemma SendingAlignment(l: Link, v: Session, timestamp: Time)
    requires Heeded(l.settings, v) && Idle(l, v, 0) && v.AlignmentDue(1)
    ensures var r := Poll(l, 1, Read(0, []), Willing(BUFFER_SIZE)).0;
            Idle(r, v.AlignmentSent(1).0, 1) && r.settings == l.settings && r.lastEstimate == l.lastEstimate
  {
    PollOnlySends(l, v, Willing(BUFFER_SIZE));
    var filled := QueueAlignment(l, 1).0;
    assert Fill(l, 1) == (filled, true);
    SendsItAll(filled);
    assert Send(l, 1, Willing(BUFFER_SIZE)) == Send(filled, 1, Willing(BUFFER_SIZE));
    Snoc(filled.log, WriteEvent(filled, |filled.bytes|, 1));
    hide Poll, Send;
  }

  lemma HearingAccepted(l: Link, v: Session)
    requires l.settings.Valid() && Idle(l, v, 1) && v == SessionAt(l.settings, AwaitingAlignment, Some(0), 1)
    ensures var r := Poll(l, 1, HearAccepted(l.settings).read, Willing(BUFFER_SIZE)).0;
            Idle(r, v.(state := Aligned), 0) && r.settings == l.settings && r.lastEstimate == l.lastEstimate
  {
    assert v.Tick(1) == v && l.(session := v) == l;
    var p := Received(AckMessage(l.settings.controller, true, 0, 0, ResultAccepted));
    ReceivingOne(l, p, 1);
    var heard := Reply(l, p.message, Accepted, 1);
    assert ReceiveOne(l, p, 1) == heard;
    assert v.Honours(1) && heard.session == v.(state := Aligned);
    Snoc(l.log, Replied(p.message, Accepted, 1, true));
    assert Idle(heard, v.(state := Aligned), 0);
    assert Expire(heard, 1) == heard && Fill(heard, 1) == (heard, true);
  }

  lemma HearingArmed(l: Link, v: Session)
    requires l.settings.Valid() && Idle(l, v, 0) && v == SessionAt(l.settings, Aligned, Some(0), 1)
    ensures var r := Poll(l, 1, HearArmed(l.settings).read, Willing(BUFFER_SIZE)).0;
            && Idle(r, v.(armed := true), 0) && r.settings == l.settings && r.lastEstimate == l.lastEstimate
            && LastHeard(r.log).Some? && LastHeard(r.log).value.armed
  {
    assert v.Tick(1) == v && l.(session := v) == l;
    var p := Received(HeartbeatMessage(l.settings.controller, true, false, true));
    ReceivingOne(l, p, 1);
    var heard := Hear(l, p.message, true, 1);
    assert ReceiveOne(l, p, 1) == heard;
    assert heard.session == v.(armed := true);
    Snoc(l.log, Heard(p.message, true, 1));
    assert Idle(heard, v.(armed := true), 0);
    assert Expire(heard, 1) == heard && Fill(heard, 1) == (heard, true);
  }

  lemma WritingFails(l: Link, v: Session, timestamp: Time)
    requires Heeded(l.settings, v) && v.state.Aligned? && Loaded(l, v, 0, timestamp)
    ensures Poll(l, 1, Read(0, []), WriteThrew).0 == Close(l)
  {
    PollOnlySends(l, v, WriteThrew);
  }

  /** `Aligning` does align, whatever the configuration. */
  lemma AligningAligns(base: Settings)
    requires base.Valid()
    ensures var s := AtOrigin(base);
            var l := Run(s, Aligning(s));
            Idle(l, SessionAt(s, Aligned, Some(0), 1), 0) && l.lastEstimate == Some(0)
  {
    var s := AtOrigin(base);
    hide Poll, Publish, Inv, Idle, Loaded, StartSession;
    var script := Aligning(s);
    assert script[..0] == [] && script[..6] == script;
    forall n: nat | n < 6
      ensures Run(s, script[..n + 1]) == Do(Run(s, script[..n]), script[n]).0
    {
      assert script[..n + 1] == script[..n] + [script[n]];
      RunSnoc(s, script[..n], script[n]);
    }
    HearingDisarmed(s);
    Publishing(Run(s, script[..2]), SessionAt(s, Priming, None, 0), 0, 0);
    SendingMeasurement(Run(s, script[..3]), SessionAt(s, Priming, None, 0), 0, 0);
    SendingAlignment(Run(s, script[..4]), SessionAt(s, Priming, Some(0), 0), 0);
    HearingAccepted(Run(s, script[..5]), SessionAt(s, AwaitingAlignment, Some(0), 1));
  }

  /** The last event is a whole measurement, written while the last heartbeat said armed. */
  ghost predicate EndsInFlight(log: seq<Event>) {
    && log != [] && log[|log| - 1].CompletesMeasurement()
    && LastHeard(log).Some? && LastHeard(log).value.armed
  }

  lemma WrittenInFlight(log: seq<Event>, offer: Event, write: Event)
    requires LastHeard(log).Some? && LastHeard(log).value.armed && offer.Offered? && write.CompletesMeasurement()
    ensures EndsInFlight(log + [offer] + [write])
  {
    Snoc(log, offer);
    Snoc(log + [offer], write);
  }

  /** An armed vehicle is told where it is: for every configuration a run aligns, hears it arm and goes on. */
  lemma ArmedVehicleIsTold(base: Settings)
    requires base.Valid()
    ensures EndsInFlight(Run(AtOrigin(base), Flying(AtOrigin(base))).log)
  {
    hide Poll, Publish, Inv, Idle, Loaded, Aligning, Run, EndsInFlight;
    var s := AtOrigin(base);
    AligningAligns(base);
    var before := Run(s, Aligning(s));
    var v := SessionAt(s, Aligned, Some(0), 1);
    RunSnoc(s, Aligning(s), HearArmed(s));
    RunSnoc(s, Aligning(s) + [HearArmed(s)], Offering(Snapshot(1), 1));
    RunSnoc(s, Aligning(s) + [HearArmed(s)] + [Offering(Snapshot(1), 1)], WRITE_ALL);
    HearingArmed(before, v);
    BufferFits(before);
    var armed := Poll(before, 1, HearArmed(s).read, Willing(BUFFER_SIZE)).0;
    Publishing(armed, v.(armed := true), 0, 1);
    var loaded := Publish(armed, Snapshot(1), 1).0;
    SendingMeasurement(loaded, v.(armed := true), 0, 1);
    LoadedCompletes(loaded, v.(armed := true), 0, 1);
    WrittenInFlight(armed.log, Offered(Snapshot(1), 1, true), WriteEvent(loaded, |loaded.bytes|, 1));
  }

  lemma LoadedCompletes(l: Link, v: Session, open: nat, timestamp: Time)
    requires Loaded(l, v, open, timestamp)
    ensures WriteEvent(l, |l.bytes|, 1).CompletesMeasurement()
  {
  }

  /**
   * The count does go wrong: for every configuration there is a run that aligns and then loses its stream
   * while writing the next measurement; it has counted one attempt and no command is unresolved.
   */
  lemma CutOffMiscounts(base: Settings)
    requires base.Valid()
    ensures var s := AtOrigin(base);
            var l := Run(s, CutOff(s));
            l.session.state.Failed? && l.session.attempts == 1 && Unresolved(l.log) == 0
  {
    hide Poll, Publish, Inv, Idle, Loaded, Aligning, Run;
    var s := AtOrigin(base);
    AligningAligns(base);
    var before := Run(s, Aligning(s));
    var v := SessionAt(s, Aligned, Some(0), 1);
    RunSnoc(s, Aligning(s), Offering(Snapshot(1), 1));
    RunSnoc(s, Aligning(s) + [Offering(Snapshot(1), 1)], Service(1, Read(0, []), WriteThrew));
    Publishing(before, v, 0, 1);
    var loaded := Publish(before, Snapshot(1), 1).0;
    WritingFails(loaded, v, 1);
    LosingIt(loaded, v, 1);
  }

  lemma LosingIt(l: Link, v: Session, timestamp: Time)
    requires Loaded(l, v, 0, timestamp)
    ensures var r := Close(l);
            r.session.state.Failed? && r.session.attempts == v.attempts && Unresolved(r.log) == 0
  {
    Snoc(l.log, Closed);
  }
}
