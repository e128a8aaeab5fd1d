/** What every sequence of calls on a flight session keeps, whatever the times passed to them. */
module SessionRuns {
  import opened Basics
  import opened Sessions

  datatype Call =
    | Start(generation: nat)
    | Heartbeat(armed: bool, now: Time)
    | Tick(now: Time)
    | Acknowledge(result: AlignmentResult, now: Time)
    | MeasurementSent(timestamp: Time)
    | AlignmentSent(now: Time)
    | Fail
  {
    /** The call lets the policy notice the time. */
    predicate Serves() {
      Heartbeat? || Tick? || Acknowledge?
    }

    /** The call carries a clock reading no later than `limit`. */
    predicate By(limit: Time) {
      && (Heartbeat? || Tick? || Acknowledge? || AlignmentSent? ==> now <= limit)
    }

    /** The call is one that services an outstanding request without answering it. */
    predicate Waits() {
      Heartbeat? || Tick? || MeasurementSent? || (Acknowledge? && result.InProgress?)
    }
  }

  function Apply(s: Session, c: Call): Session {
    match c
    case Start(generation) => s.Start(generation).0
    case Heartbeat(armed, now) => s.Heartbeat(armed, now)
    case Tick(now) => s.Tick(now)
    case Acknowledge(result, now) => s.Acknowledge(result, now)
    case MeasurementSent(timestamp) => s.MeasurementSent(timestamp)
    case AlignmentSent(now) => s.AlignmentSent(now).0
    case Fail => s.Fail()
  }

  function Run(s: Session, calls: seq<Call>): Session {
    if calls == [] then s else Apply(Run(s, calls[..|calls| - 1]), calls[|calls| - 1])
  }

  lemma TickKeepsBounds(s: Session, now: Time)
    requires s.Bounded()
    ensures s.Tick(now).Bounded() && s.Tick(now).config == s.config
  {
  }

  lemma HeartbeatKeepsBounds(s: Session, armed: bool, now: Time)
    requires s.Bounded()
    ensures s.Heartbeat(armed, now).Bounded() && s.Heartbeat(armed, now).config == s.config
  {
    TickKeepsBounds(s, now);
    var heard := s.Tick(now).(heartbeatTime := Some(now), armed := armed);
    TickKeepsBounds(if heard.state.AwaitingAlignment? && armed then heard.Fail() else heard, now);
  }

  lemma AcknowledgeKeepsBounds(s: Session, result: AlignmentResult, now: Time)
    requires s.Bounded()
    ensures s.Acknowledge(result, now).Bounded() && s.Acknowledge(result, now).config == s.config
  {
    TickKeepsBounds(s, now);
  }

  lemma StartKeepsBounds(s: Session, generation: nat)
    requires s.Bounded()
    ensures s.Start(generation).0.Bounded() && s.Start(generation).0.config == s.config
  {
  }

  lemma RequestKeepsBounds(s: Session, now: Time)
    requires s.Bounded()
    ensures s.AlignmentSent(now).0.Bounded() && s.AlignmentSent(now).0.config == s.config
  {
  }

  lemma StepKeepsBounds(s: Session, c: Call)
    requires s.Bounded()
    ensures Apply(s, c).Bounded() && Apply(s, c).config == s.config
  {
    match c {
      case Heartbeat(armed, now) => HeartbeatKeepsBounds(s, armed, now);
      case Tick(now) => TickKeepsBounds(s, now);
      case Acknowledge(result, now) => AcknowledgeKeepsBounds(s, result, now);
      case Start(generation) => StartKeepsBounds(s, generation);
      case AlignmentSent(now) => RequestKeepsBounds(s, now);
      case _ =>
    }
  }

  /** What one waiting call may do to a session: keep the request and its clock, or end it. */
  ghost predicate Waited(s: Session, c: Call, r: Session) {
    && r.config == s.config && (r.state.Aligned? ==> s.state.Aligned?)
    && (r.state.AwaitingAlignment? ==>
          && s.state.AwaitingAlignment? && r.requestTime == s.requestTime && r.attempts == s.attempts
          && (r.inProgress ==> s.inProgress || c.Acknowledge?)
          && (c.Serves() ==> c.now - s.requestTime < s.ActiveTimeout()))
  }

  lemma TickWaits(s: Session, now: Time)
    requires s.Bounded()
    ensures Waited(s, Tick(now), s.Tick(now))
  {
  }

  lemma HeartbeatWaits(s: Session, armed: bool, now: Time)
    requires s.Bounded()
    ensures Waited(s, Heartbeat(armed, now), s.Heartbeat(armed, now))
  {
    var heard := s.Tick(now).(heartbeatTime := Some(now), armed := armed);
    var judged := if heard.state.AwaitingAlignment? && armed then heard.Fail() else heard;
    TickKeepsBounds(s, now);
    TickWaits(s, now);
    TickWaits(judged, now);
    hide Session.Tick, Session.Bounded;
  }

  lemma StepWaits(s: Session, c: Call)
    requires s.Bounded() && c.Waits()
    ensures Waited(s, c, Apply(s, c))
  {
    match c {
      case Heartbeat(armed, now) => HeartbeatWaits(s, armed, now);
      case _ =>
    }
  }

  /**
   * Bounded alignment: in every reachable state a pending request is disarmed and counted within the
   * limit, and a session that may still ask has an attempt left, so it is never stuck without a retry.
   */
  lemma {:induction false} EveryRunIsBounded(config: Config, reset: Byte, calls: seq<Call>)
    requires config.Valid()
    ensures Run(NewSession(config, reset), calls).Bounded()
    ensures Run(NewSession(config, reset), calls).config == config
  {
    if calls == [] {
    } else {
      EveryRunIsBounded(config, reset, calls[..|calls| - 1]);
      StepKeepsBounds(Run(NewSession(config, reset), calls[..|calls| - 1]), calls[|calls| - 1]);
    }
  }

  /** Failed is absorbing: no later call revives the session, gives it a generation or lets it publish. */
  lemma {:induction false} FailureIsFinal(s: Session, calls: seq<Call>)
    requires s.state.Failed?
    ensures var r := Run(s, calls);
            && r.state.Failed? && r.generation == s.generation
            && r.attempts == s.attempts && r.resetCounter == s.resetCounter
            && forall now :: !r.CanPublish(now) && !r.AlignmentDue(now)
  {
    if calls == [] {
    } else {
      FailureIsFinal(s, calls[..|calls| - 1]);
    }
  }

  /** The longest time a request that saw these calls may stay outstanding. */
  function Patience(s: Session, calls: seq<Call>): Time {
    if !s.inProgress && (forall i :: 0 <= i < |calls| ==> !calls[i].Acknowledge?) then s.config.alignmentTimeout
    else if s.config.progressTimeout > s.config.alignmentTimeout then s.config.progressTimeout
    else s.config.alignmentTimeout
  }

  /** The request outstanding in `s` still is in `r`, on its original clock and within its limit at every call. */
  ghost predicate KeptItsDeadline(s: Session, calls: seq<Call>, r: Session) {
    && r.requestTime == s.requestTime && r.attempts == s.attempts
    && (r.inProgress ==> s.inProgress || exists i :: 0 <= i < |calls| && calls[i].Acknowledge?)
    && forall i :: 0 <= i < |calls| && calls[i].Serves() ==> calls[i].now - s.requestTime < Patience(s, calls)
  }

  lemma ExtendDeadline(s: Session, rest: seq<Call>, last: Call, middle: Session, r: Session)
    requires middle.config == s.config && middle.state.AwaitingAlignment?
    requires KeptItsDeadline(s, rest, middle) && Waited(middle, last, r) && r.state.AwaitingAlignment?
    ensures KeptItsDeadline(s, rest + [last], r)
  {
    var calls := rest + [last];
    assert forall i :: 0 <= i < |rest| ==> calls[i] == rest[i];
    assert calls[|rest|] == last;
    assert Patience(s, rest) <= Patience(s, calls);
  }

  /**
   * Progress reports cannot extend the deadline: however many of them (and heartbeats) arrive, a request
   * that is still outstanding keeps its original request time and has been waiting less than the limit
   * at every call that could notice. Waiting alone never aligns the session.
   */
  lemma {:induction false} ProgressKeepsTheDeadline(s: Session, calls: seq<Call>)
    requires s.Bounded() && s.state.AwaitingAlignment?
    requires forall i :: 0 <= i < |calls| ==> calls[i].Waits()
    ensures Run(s, calls).config == s.config && Run(s, calls).Bounded() && !Run(s, calls).state.Aligned?
    ensures Run(s, calls).state.AwaitingAlignment? ==> KeptItsDeadline(s, calls, Run(s, calls))
  {
    if calls == [] {
    } else {
      var rest, last := calls[..|calls| - 1], calls[|calls| - 1];
      ProgressKeepsTheDeadline(s, rest);
      var middle, r := Run(s, rest), Run(s, calls);
      StepKeepsBounds(middle, last);
      StepWaits(middle, last);
      if r.state.AwaitingAlignment? {
        assert rest + [last] == calls;
        ExtendDeadline(s, rest, last, middle, r);
      }
    }
  }

  lemma StepKeepsTheDelay(s: Session, c: Call, limit: Time)
    requires s.config.Valid() && 0 <= limit && c.By(limit) && s.nextRequestTime <= limit + s.config.alignmentTimeout
    ensures Apply(s, c).nextRequestTime <= limit + s.config.alignmentTimeout
  {
    match c {
      case Heartbeat(armed, now) => assert s.Tick(now).nextRequestTime <= limit + s.config.alignmentTimeout;
      case _ =>
    }
  }

  lemma {:induction false} DelayIsBounded(config: Config, reset: Byte, calls: seq<Call>, limit: Time)
    requires config.Valid() && 0 <= limit
    requires forall i :: 0 <= i < |calls| ==> calls[i].By(limit)
    ensures Run(NewSession(config, reset), calls).nextRequestTime <= limit + config.alignmentTimeout
  {
    if calls == [] {
    } else {
      var rest := calls[..|calls| - 1];
      DelayIsBounded(config, reset, rest, limit);
      EveryRunIsBounded(config, reset, rest);
      StepKeepsTheDelay(Run(NewSession(config, reset), rest), calls[|calls| - 1], limit);
    }
  }

  /**
   * A retry is never postponed by more than the alignment timeout: once that long has passed since the
   * last call, a priming session that hears a disarmed controller may ask again exactly when it has just
   * sent a measurement.
   */
  lemma RetryStaysPossible(config: Config, reset: Byte, calls: seq<Call>, limit: Time, now: Time)
    requires config.Valid() && 0 <= limit
    requires forall i :: 0 <= i < |calls| ==> calls[i].By(limit)
    requires now >= limit + config.alignmentTimeout
    ensures var r := Run(NewSession(config, reset), calls);
            r.state.Priming? && r.ControllerDisarmed(now) ==>
              (r.AlignmentDue(now) <==>
               r.measurementTime.Some? && 0 <= now - r.measurementTime.value <= config.maxEstimateAge)
  {
    EveryRunIsBounded(config, reset, calls);
    DelayIsBounded(config, reset, calls, limit);
  }

  /** A refused request holds the next one back: nothing but a start or that next request moves the time. */
  ghost predicate HeldBack(r: Session, until: Time) {
    !r.state.AwaitingAlignment? && !r.state.Aligned? && (r.state.Failed? || r.nextRequestTime == until)
  }

  lemma StepHoldsBack(s: Session, c: Call, until: Time)
    requires HeldBack(s, until) && !c.Start? && !c.AlignmentSent?
    ensures HeldBack(Apply(s, c), until)
  {
    match c {
      case Heartbeat(armed, now) => assert HeldBack(s.Tick(now), until);
      case _ =>
    }
  }

  /**
   * A temporary rejection is waited out: after the controller asked for a retry at `now`, no request is
   * due before the alignment timeout has passed, whatever arrives meanwhile.
   */
  lemma {:induction false} RetryWaitsItOut(s: Session, now: Time, calls: seq<Call>, at: Time)
    requires s.Bounded() && s.Honours(now)
    requires forall i :: 0 <= i < |calls| ==> !calls[i].Start? && !calls[i].AlignmentSent?
    ensures var r := Run(s.Acknowledge(Retry, now), calls);
            HeldBack(r, now + s.config.alignmentTimeout)
            && (r.AlignmentDue(at) ==> at >= now + s.config.alignmentTimeout)
  {
    if calls == [] {
    } else {
      var rest := calls[..|calls| - 1];
      RetryWaitsItOut(s, now, rest, at);
      StepHoldsBack(Run(s.Acknowledge(Retry, now), rest), calls[|calls| - 1], now + s.config.alignmentTimeout);
    }
  }
}
