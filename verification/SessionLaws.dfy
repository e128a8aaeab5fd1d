/**
 * When exactly a session stands where it does, told by the calls made on it: each field and state has its own
 * law, which says what makes it so and what keeps it so.
 */
module SessionLaws {
  import opened Basics
  import opened Sessions
  import opened SessionRuns

  /** The last heartbeat still counts. */
  predicate Hears(s: Session, now: Time) {
    s.heartbeatTime.Some? && 0 <= now - s.heartbeatTime.value < s.config.heartbeatTimeout
  }

  /** The outstanding request has waited as long as it may. */
  predicate Overdue(s: Session, now: Time) {
    now - s.requestTime >= (if s.inProgress then s.config.progressTimeout else s.config.alignmentTimeout)
  }

  predicate Exhausted(s: Session) {
    s.attempts == s.config.alignmentAttempts
  }

  /** The request is outstanding and an answer would still count. */
  predicate Stands(s: Session, now: Time) {
    s.state.AwaitingAlignment? && Hears(s, now) && !Overdue(s, now)
  }

  /** The request is over, and may be made again. */
  predicate Retries(s: Session, now: Time) {
    s.state.AwaitingAlignment? && Hears(s, now) && Overdue(s, now) && !s.inProgress && !Exhausted(s)
  }

  /** The request is over for good: the controller fell silent, reported progress without end, or had its last chance. */
  predicate Breaks(s: Session, now: Time) {
    s.state.AwaitingAlignment? && (!Hears(s, now) || (Overdue(s, now) && (s.inProgress || Exhausted(s))))
  }

  predicate Begins(s: Session, c: Call) {
    && c.Start? && !s.state.Failed? && (s.attempts == 0 || s.state.Aligned?)
    && (s.generation.Some? ==> s.generation.value < c.generation)
  }

  /** A disarmed, recently heard controller may be asked: a measurement is fresh, the delay is over, attempts are left. */
  predicate MayAsk(s: Session, now: Time) {
    && s.state.Priming? && Hears(s, now) && !s.armed && !Exhausted(s) && now >= s.nextRequestTime
    && s.measurementTime.Some? && 0 <= now - s.measurementTime.value <= s.config.maxEstimateAge
  }

  predicate Asks(s: Session, c: Call) {
    c.AlignmentSent? && MayAsk(s, c.now)
  }

  predicate Accepts(s: Session, c: Call) {
    c.Acknowledge? && c.result.Accepted? && Stands(s, c.now)
  }

  // ---- the states

  /** The reasons a session that has not failed fails. */
  predicate Fails(s: Session, c: Call) {
    match c
    case Fail => true
    case Tick(now) => Breaks(s, now)
    case Heartbeat(armed, now) => Breaks(s, now) || (Stands(s, now) && armed)
    case Acknowledge(result, now) =>
      Breaks(s, now) || (Stands(s, now) && (result.Rejected? || (result.Retry? && Exhausted(s))))
    case _ => false
  }

  lemma TickFails(s: Session, now: Time)
    requires s.Bounded() && !s.state.Failed?
    ensures s.Tick(now).state.Failed? <==> Breaks(s, now)
    ensures s.Tick(now).state.AwaitingAlignment? <==> Stands(s, now)
  {
  }

  lemma HeartbeatFails(s: Session, armed: bool, now: Time)
    requires s.Bounded() && !s.state.Failed?
    ensures s.Heartbeat(armed, now).state.Failed? <==> Breaks(s, now) || (Stands(s, now) && armed)
  {
    TickFails(s, now);
  }

  lemma AcknowledgeFails(s: Session, result: AlignmentResult, now: Time)
    requires s.Bounded() && !s.state.Failed?
    ensures s.Acknowledge(result, now).state.Failed?
            <==> Breaks(s, now) || (Stands(s, now) && (result.Rejected? || (result.Retry? && Exhausted(s))))
  {
    TickFails(s, now);
  }

  lemma FailsExactlyFor(s: Session, c: Call)
    requires s.Bounded() && !s.state.Failed?
    ensures Apply(s, c).state.Failed? <==> Fails(s, c)
  {
    hide Session.Tick, Session.Heartbeat, Session.Acknowledge, Session.Bounded, Breaks, Stands;
    match c {
      case Tick(now) => TickFails(s, now);
      case Heartbeat(armed, now) => HeartbeatFails(s, armed, now);
      case Acknowledge(result, now) => AcknowledgeFails(s, result, now);
      case _ =>
    }
  }

  /** The call leaves an alignment as it is. */
  predicate KeepsAlignment(s: Session, c: Call) {
    match c
    case Start(_) => !Begins(s, c)
    case Fail => false
    case MeasurementSent(_) => true
    case AlignmentSent(_) => true
    case _ => Hears(s, c.now)
  }

  lemma AlignsExactlyFor(s: Session, c: Call)
    requires s.Bounded()
    ensures Apply(s, c).state.Aligned? <==> Accepts(s, c) || (s.state.Aligned? && KeepsAlignment(s, c))
  {
  }

  /** The call leaves an outstanding request outstanding. */
  predicate KeepsRequest(s: Session, c: Call) {
    match c
    case Fail => false
    case Heartbeat(armed, now) => Stands(s, now) && !armed
    case Tick(now) => Stands(s, now)
    case Acknowledge(result, now) => Stands(s, now) && result.InProgress?
    case _ => true
  }

  lemma AwaitsExactly(s: Session, c: Call)
    requires s.Bounded()
    ensures Apply(s, c).state.AwaitingAlignment? <==> Asks(s, c) || (s.state.AwaitingAlignment? && KeepsRequest(s, c))
  {
  }

  lemma AskingStartsTheClock(s: Session, c: Call)
    requires s.Bounded() && Asks(s, c)
    ensures Apply(s, c).requestTime == c.now && !Apply(s, c).inProgress
  {
  }

  lemma WaitingKeepsTheClock(s: Session, c: Call)
    requires s.Bounded() && s.state.AwaitingAlignment? && KeepsRequest(s, c)
    ensures var r := Apply(s, c);
            r.requestTime == s.requestTime && r.inProgress == (s.inProgress || c.Acknowledge?)
  {
  }

  /** A request is outstanding on the clock of the call that made it, and knows whether progress was reported. */
  lemma AwaitsExactlyFor(s: Session, c: Call)
    requires s.Bounded()
    ensures var r := Apply(s, c);
            && (r.state.AwaitingAlignment? <==> Asks(s, c) || (s.state.AwaitingAlignment? && KeepsRequest(s, c)))
            && (Asks(s, c) ==> r.requestTime == c.now && !r.inProgress)
            && (s.state.AwaitingAlignment? && KeepsRequest(s, c) ==>
                  r.requestTime == s.requestTime && r.inProgress == (s.inProgress || c.Acknowledge?))
  {
    hide Apply, Session.Bounded, KeepsRequest;
    AwaitsExactly(s, c);
    if Asks(s, c) {
      AskingStartsTheClock(s, c);
    }
    if s.state.AwaitingAlignment? && KeepsRequest(s, c) {
      WaitingKeepsTheClock(s, c);
    }
  }

  /** The session waits for its controller before it hears it, and again once it does not hear it in time. */
  lemma WaitsExactlyFor(s: Session, c: Call)
    requires s.Bounded()
    ensures Apply(s, c).state.WaitingForController?
            <==> || Begins(s, c)
                 || ((c.Tick? || c.Acknowledge?) && s.generation.Some? && !Hears(s, c.now)
                     && !s.state.Failed? && !s.state.AwaitingAlignment?)
                 || (s.state.WaitingForController? && !c.Fail?
                     && (c.Serves() ==> s.generation.None? || (!c.Heartbeat? && !Hears(s, c.now))))
  {
  }

  // ---- the fields

  /** The time before which nothing is asked: none at the start, at once after an expiry, a while after a retry. */
  lemma NextRequestIsTimed(s: Session, c: Call)
    requires s.Bounded()
    ensures Apply(s, c).nextRequestTime
            == if Begins(s, c) then 0
               else if c.Serves() && Retries(s, c.now) then c.now
               else if c.Acknowledge? && c.result.Retry? && Stands(s, c.now) && !Exhausted(s)
               then c.now + s.config.alignmentTimeout
               else s.nextRequestTime
  {
  }

  /** The evidence of a measurement lasts while the session does and its controller is heard. */
  lemma MeasurementLasts(s: Session, c: Call)
    requires s.Bounded()
    ensures Apply(s, c).measurementTime
            == if c.MeasurementSent? then Some(c.timestamp)
               else if Begins(s, c) || (!s.state.Failed? && Fails(s, c)) || c.Fail? then None
               else if c.Serves() && s.generation.Some? && !s.state.Failed? && !Hears(s, c.now) then None
               else s.measurementTime
  {
  }

  /** Attempts are those since the session began or an alignment was lost. */
  lemma AttemptsAreCounted(s: Session, c: Call)
    requires s.Bounded()
    ensures Apply(s, c).attempts
            == if Begins(s, c) || (c.Serves() && s.state.Aligned? && !Hears(s, c.now)) then 0
               else if Asks(s, c) then s.attempts + 1
               else s.attempts
  {
  }

  lemma ControllerIsNoted(s: Session, c: Call)
    ensures var r := Apply(s, c);
            && r.heartbeatTime == (if c.Heartbeat? then Some(c.now) else s.heartbeatTime)
            && r.armed == (if c.Heartbeat? then c.armed else s.armed)
  {
  }

  lemma TickKeepsGeneration(s: Session, now: Time)
    ensures s.Tick(now).generation == s.generation && s.Tick(now).resetCounter == s.resetCounter
  {
  }

  lemma GenerationIsNoted(s: Session, c: Call)
    ensures var r := Apply(s, c);
            && r.generation == (if Begins(s, c) then Some(c.generation) else s.generation)
            && r.resetCounter == (if Begins(s, c) && s.generation.Some? then (s.resetCounter + 1) % 256 else s.resetCounter)
  {
    if c.Serves() {
      hide Session.Tick, Session.ControllerFresh;
      TickKeepsGeneration(s, c.now);
      if c.Heartbeat? {
        var heard := s.Tick(c.now).(heartbeatTime := Some(c.now), armed := c.armed);
        TickKeepsGeneration(heard, c.now);
        TickKeepsGeneration(heard.Fail(), c.now);
      }
    }
  }

  // ---- over whole runs

  /** The session before each call, and after the last. */
  ghost function Trace(config: Config, reset: Byte, calls: seq<Call>): (t: seq<Session>)
    requires config.Valid()
    ensures |t| == |calls| + 1 && t[|calls|] == Run(NewSession(config, reset), calls)
  {
    if calls == [] then [NewSession(config, reset)]
    else
      var t := Trace(config, reset, calls[..|calls| - 1]);
      t + [Apply(t[|calls| - 1], calls[|calls| - 1])]
  }

  lemma TraceGrows(config: Config, reset: Byte, rest: seq<Call>, last: Call)
    requires config.Valid()
    ensures var s := Run(NewSession(config, reset), rest);
            && s.Bounded() && Trace(config, reset, rest)[|rest|] == s
            && Run(NewSession(config, reset), rest + [last]) == Apply(s, last)
            && Trace(config, reset, rest + [last]) == Trace(config, reset, rest) + [Apply(s, last)]
  {
    hide Apply, Session.Bounded, NewSession;
    EveryRunIsBounded(config, reset, rest);
    assert (rest + [last])[..|rest|] == rest;
  }

  /** The call at `k` accepted the alignment, and every call since has left it as it was. */
  ghost predicate AlignedSince(t: seq<Session>, calls: seq<Call>, k: nat)
    requires |calls| <= |t|
  {
    && k < |calls| && Accepts(t[k], calls[k])
    && forall j :: k < j < |calls| ==> KeepsAlignment(t[j], calls[j])
  }

  lemma SinceGrows(t: seq<Session>, calls: seq<Call>, s: Session, c: Call)
    requires |t| == |calls| + 1
    ensures (exists k: nat :: AlignedSince(t + [s], calls + [c], k))
            <==> Accepts(t[|calls|], c) || ((exists k: nat :: AlignedSince(t, calls, k)) && KeepsAlignment(t[|calls|], c))
  {
    hide Accepts, KeepsAlignment;
    forall k: nat | AlignedSince(t + [s], calls + [c], k)
      ensures if k == |calls| then Accepts(t[k], c) else AlignedSince(t, calls, k) && KeepsAlignment(t[|calls|], c)
    {
      SinceBefore(t, calls, s, c, k);
    }
    if Accepts(t[|calls|], c) {
      assert AlignedSince(t + [s], calls + [c], |calls|);
    }
    if KeepsAlignment(t[|calls|], c) {
      forall k: nat | AlignedSince(t, calls, k)
        ensures AlignedSince(t + [s], calls + [c], k)
      {
      }
    }
  }

  lemma SinceBefore(t: seq<Session>, calls: seq<Call>, s: Session, c: Call, k: nat)
    requires |t| == |calls| + 1 && AlignedSince(t + [s], calls + [c], k)
    ensures if k == |calls| then Accepts(t[k], c) else AlignedSince(t, calls, k) && KeepsAlignment(t[|calls|], c)
  {
    hide Accepts, KeepsAlignment;
    assert forall j :: 0 <= j < |calls| ==> (calls + [c])[j] == calls[j];
    assert forall j :: 0 <= j < |t| ==> (t + [s])[j] == t[j];
    assert (calls + [c])[|calls|] == c;
    if k < |calls| {
      assert KeepsAlignment((t + [s])[|calls|], (calls + [c])[|calls|]);
      forall j | k < j < |calls|
        ensures KeepsAlignment(t[j], calls[j])
      {
        assert KeepsAlignment((t + [s])[j], (calls + [c])[j]);
      }
    }
  }

  /**
   * Aligned, exactly: a session is aligned if and only if the controller accepted an outstanding request and
   * ever since every call that could notice has found the controller heard in time, and no new generation has
   * begun.
   */
  lemma {:induction false} AlignedExactlySince(config: Config, reset: Byte, calls: seq<Call>)
    requires config.Valid()
    ensures Run(NewSession(config, reset), calls).state.Aligned?
            <==> exists k: nat :: AlignedSince(Trace(config, reset, calls), calls, k)
  {
    if calls == [] {
    } else {
      hide AlignedSince, Apply, Accepts, KeepsAlignment, Session.Bounded, Run, Trace, NewSession;
      var rest, last := calls[..|calls| - 1], calls[|calls| - 1];
      assert rest + [last] == calls;
      var s := Run(NewSession(config, reset), rest);
      AlignedExactlySince(config, reset, rest);
      TraceGrows(config, reset, rest, last);
      AlignsExactlyFor(s, last);
      SinceGrows(Trace(config, reset, rest), rest, Apply(s, last), last);
    }
  }

  /** The session had not failed before the call at `k`, which gave it a reason to. */
  ghost predicate FailedAt(t: seq<Session>, calls: seq<Call>, k: nat)
    requires |calls| <= |t|
  {
    k < |calls| && !t[k].state.Failed? && Fails(t[k], calls[k])
  }

  lemma FailingGrows(t: seq<Session>, calls: seq<Call>, s: Session, c: Call)
    requires |t| == |calls| + 1
    ensures (exists k: nat :: FailedAt(t + [s], calls + [c], k))
            <==> || (!t[|calls|].state.Failed? && Fails(t[|calls|], c))
                 || exists k: nat :: FailedAt(t, calls, k)
  {
    hide Fails;
    if k: nat :| FailedAt(t + [s], calls + [c], k) {
      assert k < |calls| ==> FailedAt(t, calls, k);
    }
    if !t[|calls|].state.Failed? && Fails(t[|calls|], c) {
      assert FailedAt(t + [s], calls + [c], |calls|);
    }
    if k: nat :| FailedAt(t, calls, k) {
      assert FailedAt(t + [s], calls + [c], k);
    }
  }

  /**
   * Failed, exactly: a session has failed if and only if some call found a request broken off, arming, a final
   * refusal or a retry with no attempt left, or was told to fail.
   */
  lemma {:induction false} FailedExactlyOnce(config: Config, reset: Byte, calls: seq<Call>)
    requires config.Valid()
    ensures Run(NewSession(config, reset), calls).state.Failed?
            <==> exists k: nat :: FailedAt(Trace(config, reset, calls), calls, k)
  {
    if calls == [] {
    } else {
      hide FailedAt, Apply, Fails, Session.Bounded, Run, Trace, NewSession;
      var rest, last := calls[..|calls| - 1], calls[|calls| - 1];
      assert rest + [last] == calls;
      var s := Run(NewSession(config, reset), rest);
      FailedExactlyOnce(config, reset, rest);
      TraceGrows(config, reset, rest, last);
      if s.state.Failed? {
        FailureStays(s, last);
      } else {
        FailsExactlyFor(s, last);
      }
      FailingGrows(Trace(config, reset, rest), rest, Apply(s, last), last);
    }
  }

  lemma FailureStays(s: Session, c: Call)
    requires s.state.Failed?
    ensures Apply(s, c).state.Failed?
  {
  }

  /** A request that ran out of time with an attempt left is made again as soon as a measurement is fresh. */
  lemma ExpiredRequestIsRetried(config: Config, reset: Byte, calls: seq<Call>, now: Time)
    requires config.Valid() && Retries(Run(NewSession(config, reset), calls), now)
    ensures var s := Run(NewSession(config, reset), calls);
            && s.Tick(now).state.Priming?
            && (s.Tick(now).AlignmentDue(now) <==>
                  s.measurementTime.Some? && 0 <= now - s.measurementTime.value <= config.maxEstimateAge)
  {
    EveryRunIsBounded(config, reset, calls);
    hide Run;
  }
}
