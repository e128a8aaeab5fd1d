/** The flight session always agrees with the log: what it remembers really happened. */
module SessionProofs {
  import opened Basics
  import opened Sessions
  import opened LinkModel
  import opened LinkHistory

  // ---- extending a log by one event

  lemma Snoc(log: seq<Event>, e: Event)
    ensures (log + [e])[..|log|] == log && (log + [e])[|log|] == e
    ensures LastHeard(log + [e]) == if e.Heard? then Some(e) else LastHeard(log)
    ensures LastGeneration(log + [e]) == if e.Began? then Some(e.generation) else LastGeneration(log)
    ensures Generations(log + [e]) == Generations(log) + if e.Began? then 1 else 0
    ensures LastQueued(log + [e]) == if e.Began? then None
                                     else if e.Offered? && e.queued then Some(e.estimate) else LastQueued(log)
    ensures Denied(log + [e])
            == ((e.Replied? && e.honoured && e.message.AckMessage? && e.message.result.ResultOther?) || Denied(log))
    ensures LastWrite(log + [e]) == if e.Wrote? then Some(e) else LastWrite(log)
    ensures Unresolved(log + [e]) ==
            if e.Began? || (e.Replied? && e.honoured && e.result.Accepted?) then 0
            else Unresolved(log) + if e.CompletesAlignment() then 1 else 0
  {
    assert (log + [e])[..|log|] == log;
  }

  lemma SnocPrefixes(log: seq<Event>, e: Event)
    ensures forall i :: 0 <= i <= |log| ==> (log + [e])[..i] == log[..i]
    ensures forall i :: 0 <= i < |log| ==> (log + [e])[i] == log[i]
  {
  }

  lemma SnocLawful(s: Settings, log: seq<Event>, e: Event)
    requires Lawful(s, log) && EventRule(s, log, e)
    ensures Lawful(s, log + [e])
  {
    SnocPrefixes(log, e);
    var longer := log + [e];
    forall i | 0 <= i < |longer|
      ensures EventRule(s, longer[..i], longer[i])
    {
      if i < |log| {
        assert EventRule(s, log[..i], log[i]);
      } else {
        assert longer[..i] == log && longer[i] == e;
      }
    }
  }

  /** Events that neither start a session nor hide a heartbeat gap. */
  ghost predicate Harmless(log: seq<Event>, timeout: Time, e: Event) {
    !e.Began? && (e.Heard? ==> Recent(log, timeout, e.now))
  }

  lemma KeepPrimed(log: seq<Event>, timeout: Time, e: Event, m: nat)
    requires Primed(log, timeout, m) && Harmless(log, timeout, e)
    ensures Primed(log + [e], timeout, m)
  {
    SnocPrefixes(log, e);
    var longer := log + [e];
    forall i | m <= i < |longer| && longer[i].Heard?
      ensures Recent(longer[..i], timeout, longer[i].now)
    {
      if i < |log| {
        assert Recent(log[..i], timeout, log[i].now);
      } else {
        assert longer[..i] == log;
      }
    }
  }

  // ---- agreement

  /** The controller's last heartbeat is the one the session remembers. */
  ghost predicate HeartbeatAgrees(v: Session, log: seq<Event>) {
    if v.heartbeatTime.None? then LastHeard(log).None?
    else
      && LastHeard(log).Some? && LastHeard(log).value.armed == v.armed
      && LastHeard(log).value.now == v.heartbeatTime.value
  }

  ghost predicate GenerationAgrees(s: Settings, v: Session, log: seq<Event>) {
    && v.generation == LastGeneration(log)
    && (v.generation.None? <==> Generations(log) == 0)
    && v.resetCounter == ResetByte(s, log)
  }

  /** The attempts the session counts are the commands nobody accepted yet. */
  ghost predicate Counts(v: Session, log: seq<Event>) {
    v.attempts == Unresolved(log)
  }

  /** An aligned session has nothing unresolved, a failed one nothing or its attempts, any other its attempts. */
  ghost predicate AttemptsAgree(v: Session, log: seq<Event>) {
    match v.state
    case Aligned => Unresolved(log) == 0
    case Failed => Counts(v, log) || Unresolved(log) == 0
    case _ => Counts(v, log)
  }

  /** What the state of the session claims about the past is in the log. */
  ghost predicate Evidenced(v: Session, log: seq<Event>, timeout: Time) {
    && (v.measurementTime.Some? ==>
          && v.generation.Some? && !v.state.Failed?
          && exists m: nat :: Primed(log, timeout, m) && log[m].timestamp == v.measurementTime.value)
    && (v.state.AwaitingAlignment? ==> exists m: nat, a: nat :: Requested(log, timeout, m, a))
    && (v.state.Aligned? ==> Justified(log, timeout))
  }

  ghost predicate Agrees(s: Settings, v: Session, log: seq<Event>) {
    && s.Valid() && v.config == s.session && v.Bounded()
    && HeartbeatAgrees(v, log) && GenerationAgrees(s, v, log) && AttemptsAgree(v, log)
    && (Denied(log) ==> v.state.Failed?)
    && Evidenced(v, log, s.session.heartbeatTimeout)
  }

  lemma FreshAgrees(s: Settings, v: Session, log: seq<Event>, now: Time)
    requires Agrees(s, v, log)
    ensures v.ControllerFresh(now) <==> Recent(log, s.session.heartbeatTimeout, now)
  {
  }

  lemma KeepEvidence(v: Session, log: seq<Event>, timeout: Time, e: Event)
    requires Evidenced(v, log, timeout) && Harmless(log, timeout, e)
    ensures Evidenced(v, log + [e], timeout)
  {
    SnocPrefixes(log, e);
    if v.measurementTime.Some? {
      var m: nat :| Primed(log, timeout, m) && log[m].timestamp == v.measurementTime.value;
      KeepPrimed(log, timeout, e, m);
    }
    if v.state.AwaitingAlignment? {
      var m: nat, a: nat :| Requested(log, timeout, m, a);
      KeepPrimed(log, timeout, e, m);
      assert Requested(log + [e], timeout, m, a);
    }
    if v.state.Aligned? {
      KeepJustified(log, timeout, e);
    }
  }

  lemma KeepJustified(log: seq<Event>, timeout: Time, e: Event)
    requires Justified(log, timeout) && Harmless(log, timeout, e)
    ensures Justified(log + [e], timeout)
  {
    var m: nat, a: nat, k: nat :| Granted(log, timeout, m, a, k);
    KeepPrimed(log, timeout, e, m);
    assert Granted(log + [e], timeout, m, a, k);
  }

  /** Time and messages never change the generation, and leave an unaligned session's attempts alone. */
  ghost predicate Listened(v: Session, r: Session) {
    && r.generation == v.generation && r.resetCounter == v.resetCounter
    && (v.state.WaitingForController? || v.state.Priming? || v.state.Failed? ==>
          && (r.state.WaitingForController? || r.state.Priming? || r.state.Failed?)
          && (r.state.Failed? || r.attempts == v.attempts))
    && (v.state.Failed? ==> r.state.Failed?)
  }

  lemma TickListens(v: Session, now: Time)
    ensures Listened(v, v.Tick(now))
  {
  }

  lemma HeartbeatListens(v: Session, armed: bool, now: Time)
    ensures Listened(v, v.Heartbeat(armed, now))
  {
  }

  lemma AcknowledgeListens(v: Session, result: AlignmentResult, now: Time)
    ensures Listened(v, v.Acknowledge(result, now))
  {
  }

  // ---- one call at a time

  lemma TickAgrees(s: Settings, v: Session, log: seq<Event>, now: Time)
    requires Agrees(s, v, log)
    ensures Agrees(s, v.Tick(now), log)
  {
  }

  lemma HeartbeatKeepsAgreement(s: Settings, v: Session, log: seq<Event>, e: Event)
    requires Agrees(s, v, log) && e.Heard?
    ensures Agrees(s, v.Heartbeat(e.armed, e.now), log + [e])
  {
    var armed, now := e.armed, e.now;
    var timeout := s.session.heartbeatTimeout;
    TickAgrees(s, v, log, now);
    FreshAgrees(s, v, log, now);
    Snoc(log, e);
    var ticked := v.Tick(now);
    var heard := ticked.(heartbeatTime := Some(now), armed := armed);
    var judged := if heard.state.AwaitingAlignment? && armed then heard.Fail() else heard;
    if Recent(log, timeout, now) {
      KeepEvidence(ticked, log, timeout, e);
    } else {
      assert ticked.measurementTime.None? && !ticked.state.AwaitingAlignment? && !ticked.state.Aligned?;
    }
    assert Evidenced(judged, log + [e], timeout);
    assert Agrees(s, judged, log + [e]);
    TickAgrees(s, judged, log + [e], now);
  }

  lemma ReplyKeepsAgreement(s: Settings, v: Session, log: seq<Event>, e: Event)
    requires Agrees(s, v, log)
    requires e.Replied? && e.honoured == v.Honours(e.now) && Answers(s, e.message) && Says(e.message, e.result)
    ensures Agrees(s, v.Acknowledge(e.result, e.now), log + [e])
    ensures ReplyRule(s, log, e)
  {
    var timeout := s.session.heartbeatTimeout;
    TickAgrees(s, v, log, e.now);
    var ticked := v.Tick(e.now);
    FreshAgrees(s, ticked, log, e.now);
    Snoc(log, e);
    KeepEvidence(ticked, log, timeout, e);
    if e.honoured && e.result.Accepted? {
      AcceptanceJustifies(log, timeout, e);
    }
  }

  lemma AcceptanceJustifies(log: seq<Event>, timeout: Time, e: Event)
    requires exists m: nat, a: nat :: Requested(log, timeout, m, a)
    requires e.Replied? && e.honoured && e.result.Accepted?
    ensures Justified(log + [e], timeout)
  {
    var m: nat, a: nat :| Requested(log, timeout, m, a);
    KeepPrimed(log, timeout, e, m);
    SnocPrefixes(log, e);
    assert Granted(log + [e], timeout, m, a, |log|);
  }

  lemma StartKeepsAgreement(s: Settings, v: Session, log: seq<Event>, generation: nat)
    requires Agrees(s, v, log)
    requires v.Start(generation).1.Begun?
    ensures Agrees(s, v.Start(generation).0, log + [Began(generation)])
    ensures Unresolved(log) == 0
    ensures LastGeneration(log).Some? ==> LastGeneration(log).value < generation
  {
    Snoc(log, Began(generation));
  }

  lemma FailureKeepsAgreement(s: Settings, v: Session, log: seq<Event>)
    requires Agrees(s, v, log)
    ensures Agrees(s, v.Fail(), log + [Closed])
  {
    Snoc(log, Closed);
  }

  /** An offer tells the session nothing. */
  lemma OfferKeepsAgreement(s: Settings, v: Session, log: seq<Event>, e: Event)
    requires Agrees(s, v, log) && e.Offered?
    ensures Agrees(s, v, log + [e])
  {
    Snoc(log, e);
    KeepEvidence(v, log, s.session.heartbeatTimeout, e);
  }

  /** A write that finishes nothing, or only our own heartbeat, tells the session nothing. */
  lemma WriteKeepsAgreement(s: Settings, v: Session, log: seq<Event>, e: Event)
    requires Agrees(s, v, log)
    requires e.Wrote? && !e.CompletesAlignment()
    ensures Agrees(s, v, log + [e])
  {
    Snoc(log, e);
    KeepEvidence(v, log, s.session.heartbeatTimeout, e);
  }

  lemma MeasurementKeepsAgreement(s: Settings, v: Session, log: seq<Event>, e: Event)
    requires Agrees(s, v, log)
    requires e.CompletesMeasurement() && v.CanPublish(e.now)
    ensures Agrees(s, v.MeasurementSent(e.timestamp), log + [e])
  {
    WriteKeepsAgreement(s, v, log, e);
    SnocPrefixes(log, e);
    assert Primed(log + [e], s.session.heartbeatTimeout, |log|);
  }

  lemma AlignmentKeepsAgreement(s: Settings, v: Session, log: seq<Event>, e: Event)
    requires Agrees(s, v, log)
    requires e.CompletesAlignment() && v.AlignmentDue(e.now)
    ensures Agrees(s, v.AlignmentSent(e.now).0, log + [e])
  {
    var timeout := s.session.heartbeatTimeout;
    Snoc(log, e);
    KeepEvidence(v, log, timeout, e);
    var m: nat :| Primed(log, timeout, m);
    KeepPrimed(log, timeout, e, m);
    SnocPrefixes(log, e);
    assert Requested(log + [e], timeout, m, |log|);
  }
}
