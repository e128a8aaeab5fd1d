/** What messages mean to the link, when publication is permitted, and which estimates are queued. */
module LinkPermissions {
  import opened Basics
  import opened Estimates
  import opened Sessions
  import opened LinkModel
  import opened LinkHistory
  import opened SessionProofs
  import opened LinkProofs
  import opened LinkTheorems

  // ---- only a start begins a generation

  /** The link went on within the generation it was in. */
  ghost predicate Onward(l: Link, r: Link) {
    match l.session.generation
    case None => r.session.generation.None? && Generations(r.log) == Generations(l.log)
    case Some(g) => r.session.generation == Some(g) && Generations(r.log) == Generations(l.log)
  }

  lemma OnwardByEvent(l: Link, r: Link, e: Event)
    requires !e.Began? && (r.log == l.log || r.log == l.log + [e]) && r.session.generation == l.session.generation
    ensures Onward(l, r)
  {
    Snoc(l.log, e);
  }

  lemma ReceivingOneGoesOn(l: Link, p: Parsed, now: Time)
    ensures Onward(l, ReceiveOne(l, p, now))
  {
    if p.Received? && p.message.sender == l.settings.controller {
      match p.message {
        case HeartbeatMessage(_, _, _, armed) =>
          HeartbeatListens(l.session, armed, now);
          OnwardByEvent(l, Hear(l, p.message, armed, now), Heard(p.message, armed, now));
        case AckMessage(_, _, _, _, _) =>
          var reply := ReplyFor(l.settings, p.message);
          if reply.Some? {
            AcknowledgeListens(l.session, reply.value, now);
            OnwardByEvent(l, Reply(l, p.message, reply.value, now),
                          Replied(p.message, reply.value, now, l.session.Honours(now)));
          }
        case OtherMessage(_) =>
      }
    }
  }

  lemma {:induction false} ReceivingGoesOn(l: Link, parsed: seq<Parsed>, now: Time)
    ensures Onward(l, ReceiveAll(l, parsed, now))
  {
    if parsed == [] {
    } else {
      ReceivingGoesOn(l, parsed[..|parsed| - 1], now);
      ReceivingOneGoesOn(ReceiveAll(l, parsed[..|parsed| - 1], now), parsed[|parsed| - 1], now);
    }
  }

  lemma ConcludingGoesOn(l: Link, now: Time)
    ensures Onward(l, Conclude(l, now).0)
  {
  }

  lemma OfferingGoesOn(l: Link, now: Time, write: WriteOutcome)
    requires l.offset <= |l.bytes|
    ensures Onward(l, Offer(l, now, write).0)
  {
    match write {
      case WriteThrew => OnwardByEvent(l, Close(l), Closed);
      case Willing(willing) =>
        var count := Accepts(l, willing);
        var moved := Transmit(l, count, now);
        OnwardByEvent(l, moved, WriteEvent(l, count, now));
        ConcludingGoesOn(moved, now);
    }
  }

  lemma FillingGoesOn(l: Link, now: Time)
    ensures Onward(l, Fill(l, now).0)
  {
  }

  lemma SendingGoesOn(l: Link, now: Time, write: WriteOutcome)
    requires l.offset <= |l.bytes|
    ensures Onward(l, Send(l, now, write).0)
  {
    FillingGoesOn(l, now);
    OfferingGoesOn(Fill(l, now).0, now, write);
  }

  lemma ExpiringGoesOn(l: Link, now: Time)
    ensures Onward(l, Expire(l, now))
  {
    OnwardByEvent(l, Expire(l, now), Closed);
  }

  lemma OnwardChain(a: Link, b: Link, c: Link)
    requires Onward(a, b) && Onward(b, c)
    ensures Onward(a, c)
  {
  }

  lemma HearingGoesOn(l: Link, now: Time, parsed: seq<Parsed>)
    ensures var heard := ReceiveAll(l.(session := l.session.Tick(now)), parsed, now);
            Onward(l, heard) && Onward(l, Close(heard)) && Onward(l, Expire(heard, now))
  {
    var ticked := l.(session := l.session.Tick(now));
    assert Onward(l, ticked);
    ReceivingGoesOn(ticked, parsed, now);
    var heard := ReceiveAll(ticked, parsed, now);
    OnwardChain(l, ticked, heard);
    OnwardByEvent(heard, Close(heard), Closed);
    OnwardChain(l, heard, Close(heard));
    ExpiringGoesOn(heard, now);
    OnwardChain(l, heard, Expire(heard, now));
  }

  /** The ways a poll can end. */
  lemma PollOutcome(l: Link, now: Time, read: ReadOutcome, write: WriteOutcome)
    requires l.offset <= |l.bytes|
    ensures var ticked, r := l.(session := l.session.Tick(now)), Poll(l, now, read, write).0;
            if read.ReadThrew? then r == l || r == Close(ticked)
            else
              var heard := ReceiveAll(ticked, read.parsed, now);
              var kept := Expire(heard, now);
              r == l || r == Close(heard) || r == kept || r == Send(kept, now, write).0
  {
  }

  lemma PollingGoesOn(l: Link, now: Time, read: ReadOutcome, write: WriteOutcome)
    requires l.offset <= |l.bytes|
    ensures Onward(l, Poll(l, now, read, write).0)
  {
    PollOutcome(l, now, read, write);
    var r := Poll(l, now, read, write).0;
    assert Onward(l, l);
    if read.ReadThrew? {
      HearingGoesOn(l, now, []);
      assert r == l || r == Close(l.(session := l.session.Tick(now)));
    } else {
      HearingGoesOn(l, now, read.parsed);
      var kept := Expire(ReceiveAll(l.(session := l.session.Tick(now)), read.parsed, now), now);
      SendingGoesOn(kept, now, write);
      OnwardChain(l, kept, Send(kept, now, write).0);
    }
  }

  lemma PublishingGoesOn(l: Link, e: Estimate, now: Time)
    ensures Onward(l, Publish(l, e, now).0)
  {
    PublishOnlyOffers(l, e, now);
    var (r, result) := Publish(l, e, now);
    OnwardByEvent(l, r, Offered(e, now, result.Queued?));
  }

  lemma UsingGoesOn(l: Link, a: Action)
    requires Inv(l) && !a.Start?
    ensures Onward(l, Do(l, a).0)
  {
    hide Inv, Onward, Poll, Publish;
    BufferFits(l);
    match a {
      case End => OnwardByEvent(l, EndSession(l), Closed);
      case Service(now, read, write) => PollingGoesOn(l, now, read, write);
      case Offering(estimate, now) => PublishingGoesOn(l, estimate, now);
      case Start(_) =>
    }
  }

  // ---- what messages mean

  /** A command is out and still waits for its answer: the controller is heard and the time is not up. */
  ghost predicate Outstanding(l: Link, now: Time) {
    && l.session.state.AwaitingAlignment? && Recent(l.log, l.settings.session.heartbeatTimeout, now)
    && now - l.session.requestTime
       < (if l.session.inProgress then l.settings.session.progressTimeout else l.settings.session.alignmentTimeout)
  }

  /** What an answer does to an outstanding command. */
  ghost predicate Decided(v: Session, r: Session, answer: CommandResult, now: Time) {
    match answer
    case ResultAccepted => r == v.(state := Aligned)
    case ResultInProgress => r == v.(inProgress := true)
    case ResultTemporarilyRejected =>
      if v.attempts == v.config.alignmentAttempts then r.state.Failed?
      else r == v.(state := Priming, nextRequestTime := now + v.config.alignmentTimeout)
    case ResultOther => r.state.Failed?
  }

  lemma OutstandingIsHonoured(l: Link, now: Time)
    requires Inv(l)
    ensures Outstanding(l, now) <==> l.session.Honours(now)
    ensures Outstanding(l, now) ==> l.session.Tick(now) == l.session
  {
    hide Lawful, WireBytes, BufferAgrees, OrderAgrees, Evidenced;
    FreshAgrees(l.settings, l.session, l.log, now);
    hide Recent;
  }

  lemma AnswerDecides(l: Link, m: Incoming, now: Time)
    requires Inv(l) && Answers(l.settings, m)
    ensures var r, honoured := Receive(l, m, now), Outstanding(l, now);
            && (exists result :: Says(m, result) && r.log == l.log + [Replied(m, result, now, honoured)])
            && (if honoured then Decided(l.session, r.session, m.result, now) else r.session == l.session.Tick(now))
  {
    OutstandingIsHonoured(l, now);
    var reply := ReplyFor(l.settings, m).value;
    assert Says(m, reply);
    assert l.session.config == l.settings.session && l.session.Bounded();
    hide Inv, Outstanding, Session.Honours, Session.Tick;
  }

  /**
   * Messages mean what they say, on every reachable open link: the controller's heartbeats set the armed bit
   * they carry, its answers to our command decide an outstanding one, each in its own way, and leave anything
   * else alone, and no other message does anything.
   */
  lemma MessagesMeanWhatTheySay(settings: Settings, actions: seq<Action>, m: Incoming, now: Time)
    requires settings.Valid()
    ensures var l := Run(settings, actions); var r := Receive(l, m, now);
            if exists armed :: m == HeartbeatMessage(settings.controller, true, false, armed) then
              && r.session.armed == m.armed && r.session.heartbeatTime == Some(now)
              && r.log == l.log + [Heard(m, m.armed, now)]
            else if Answers(settings, m) then
              && (exists result :: Says(m, result) && r.log == l.log + [Replied(m, result, now, Outstanding(l, now))])
              && (if Outstanding(l, now) then Decided(l.session, r.session, m.result, now)
                  else r.session == l.session.Tick(now))
            else r == l
  {
    hide Run, Inv, Outstanding, Decided, Session.Tick;
    var l := Run(settings, actions);
    if Answers(settings, m) {
      AnswerDecides(l, m, now);
    } else if m.HeartbeatMessage? {
      HeartbeatIsNoted(l.session, m.armed, now);
    }
  }

  lemma HeartbeatIsNoted(v: Session, armed: bool, now: Time)
    ensures v.Heartbeat(armed, now).armed == armed && v.Heartbeat(armed, now).heartbeatTime == Some(now)
  {
  }

  lemma {:induction false} DenialShows(log: seq<Event>, k: nat)
    requires k < |log| && log[k].Replied? && log[k].honoured
    requires log[k].message.AckMessage? && log[k].message.result.ResultOther?
    ensures Denied(log)
  {
    if k == |log| - 1 {
    } else {
      DenialShows(log[..|log| - 1], k);
    }
  }

  /** A command refused for good fails the session, and nothing is written after that. */
  lemma DenialIsFinal(settings: Settings, actions: seq<Action>, k: nat)
    requires settings.Valid()
    requires var log := Run(settings, actions).log;
             k < |log| && log[k].Replied? && log[k].honoured && log[k].message.AckMessage?
             && log[k].message.result.ResultOther?
    ensures var l := Run(settings, actions);
            l.session.state.Failed? && forall j :: k < j < |l.log| ==> !l.log[j].Wrote?
  {
    var l := Run(settings, actions);
    DenialShows(l.log, k);
    forall j | k < j < |l.log|
      ensures !l.log[j].Wrote?
    {
      assert EventRule(settings, l.log[..j], l.log[j]);
      assert l.log[..j][k] == l.log[k];
      DenialShows(l.log[..j], k);
    }
  }

  // ---- permission

  lemma PermittedExactly(l: Link, now: Time)
    requires Inv(l)
    ensures l.session.CanPublish(now)
            <==> && LastGeneration(l.log).Some? && Recent(l.log, l.settings.session.heartbeatTimeout, now)
                 && !l.session.state.Failed? && (l.session.state.Aligned? || Disarmed(l.log))
  {
    assert Agrees(l.settings, l.session, l.log);
    hide Inv, Lawful, Evidenced;
    FreshAgrees(l.settings, l.session, l.log, now);
  }

  /**
   * Publication is permitted exactly when a generation has begun, the controller was heard within the timeout,
   * the session has not failed, and it is aligned or the vehicle last said it was disarmed.
   */
  lemma PublicationIsPermittedExactly(settings: Settings, actions: seq<Action>, now: Time)
    requires settings.Valid()
    ensures var l := Run(settings, actions);
            l.session.CanPublish(now)
            <==> && LastGeneration(l.log).Some? && Recent(l.log, settings.session.heartbeatTimeout, now)
                 && !l.session.state.Failed? && (l.session.state.Aligned? || Disarmed(l.log))
  {
    hide Run, Inv;
    PermittedExactly(Run(settings, actions), now);
  }

  /** Aligned and heard at this very time, or neither aligned nor waiting to be. */
  predicate HeldAlignment(v: Session, now: Time) {
    v.state.Aligned? && v.ControllerFresh(now)
  }

  predicate Unaligned(v: Session) {
    v.state.WaitingForController? || v.state.Priming? || v.state.Failed?
  }

  lemma HearingKeepsAlignment(v: Session, armed: bool, now: Time)
    requires v.config.heartbeatTimeout > 0
    ensures var r := v.Heartbeat(armed, now);
            && r.config == v.config && (HeldAlignment(v, now) ==> HeldAlignment(r, now)) && (Unaligned(v) ==> Unaligned(r))
  {
  }

  lemma ReplyKeepsAlignment(v: Session, result: AlignmentResult, now: Time)
    ensures var r := v.Acknowledge(result, now);
            && r.config == v.config && (HeldAlignment(v, now) ==> HeldAlignment(r, now)) && (Unaligned(v) ==> Unaligned(r))
  {
  }

  lemma ReceivingOneKeepsAlignment(l: Link, p: Parsed, now: Time)
    requires l.session.config.heartbeatTimeout > 0
    ensures var v, r := l.session, ReceiveOne(l, p, now).session;
            && r.config == v.config && (HeldAlignment(v, now) ==> HeldAlignment(r, now)) && (Unaligned(v) ==> Unaligned(r))
  {
    hide Session.Heartbeat, Session.Acknowledge, HeldAlignment, Unaligned;
    if p.Received? && p.message.sender == l.settings.controller {
      match p.message {
        case HeartbeatMessage(_, _, _, armed) => HearingKeepsAlignment(l.session, armed, now);
        case AckMessage(_, _, _, _, _) =>
          var reply := ReplyFor(l.settings, p.message);
          if reply.Some? {
            ReplyKeepsAlignment(l.session, reply.value, now);
          }
        case OtherMessage(_) =>
      }
    }
  }

  lemma {:induction false} ReceivingKeepsAlignment(l: Link, parsed: seq<Parsed>, now: Time)
    requires l.session.config.heartbeatTimeout > 0
    ensures ReceiveAll(l, parsed, now).session.config == l.session.config
    ensures HeldAlignment(l.session, now) ==> HeldAlignment(ReceiveAll(l, parsed, now).session, now)
    ensures Unaligned(l.session) ==> Unaligned(ReceiveAll(l, parsed, now).session)
  {
    if parsed == [] {
    } else {
      hide ReceiveOne, HeldAlignment, Unaligned;
      ReceivingKeepsAlignment(l, parsed[..|parsed| - 1], now);
      ReceivingOneKeepsAlignment(ReceiveAll(l, parsed[..|parsed| - 1], now), parsed[|parsed| - 1], now);
    }
  }

  lemma FillingKeepsAlignment(l: Link, now: Time)
    requires l.open && Current(l, now) && l.offset <= |l.bytes|
    ensures var f := Fill(l, now).0;
            && f.session == l.session && f.open && f.offset <= |f.bytes|
            && (l.session.state.Aligned? ==> !f.kind.AlignmentPending?)
  {
  }

  lemma OfferingKeepsAlignment(l: Link, now: Time, write: WriteOutcome)
    requires l.open && l.offset <= |l.bytes| && (l.session.state.Aligned? ==> !l.kind.AlignmentPending?)
    ensures var r := Offer(l, now, write).0;
            && (l.session.state.Aligned? ==> (r.session.state.Aligned? <==> r.open))
            && (Unaligned(l.session) ==> !r.session.state.Aligned?)
  {
  }

  /** The transmitting half of a poll changes an alignment only by closing the link. */
  lemma SendingKeepsAlignment(l: Link, now: Time, write: WriteOutcome)
    requires l.offset <= |l.bytes| && Current(l, now) && l.open
    ensures var r := Send(l, now, write).0;
            && (l.session.state.Aligned? ==> (r.session.state.Aligned? <==> r.open))
            && (Unaligned(l.session) ==> !r.session.state.Aligned?)
  {
    hide Fill, Offer, Current;
    FillingKeepsAlignment(l, now);
    OfferingKeepsAlignment(Fill(l, now).0, now, write);
  }

  lemma ReadingKeepsAlignment(l: Link, now: Time, read: ReadOutcome)
    requires Inv(l) && l.session.state.Aligned?
    ensures var v := AfterReading(l, now, read).session;
            if Recent(l.log, l.settings.session.heartbeatTimeout, now) then v.state.Aligned? else Unaligned(v)
  {
    var v := l.session;
    assert Agrees(l.settings, v, l.log) && v.config.Valid();
    hide Inv, Agrees;
    FreshAgrees(l.settings, v, l.log, now);
    var ticked := l.(session := v.Tick(now));
    assert if v.ControllerFresh(now) then HeldAlignment(ticked.session, now) else Unaligned(ticked.session);
    if read.Read? {
      ReceivingKeepsAlignment(ticked, read.parsed, now);
    }
  }

  lemma ServiceKeepsAlignment(l: Link, now: Time, read: ReadOutcome, write: WriteOutcome)
    requires Inv(l) && l.session.state.Aligned?
    ensures var r := Poll(l, now, read, write).0;
            r.session.state.Aligned? <==> r.open && Recent(l.log, l.settings.session.heartbeatTimeout, now)
  {
    assert l.open;
    ReadingKeepsAlignment(l, now, read);
    hide Inv, Current, ReceiveAll, Send, Expire;
    TickHolds(l, now);
    if read.Read? {
      var ticked := l.(session := l.session.Tick(now));
      ReceiveAllHolds(ticked, read.parsed, now);
      var heard := ReceiveAll(ticked, read.parsed, now);
      if !heard.session.state.Failed? {
        ExpireHolds(heard, now);
        ExpiringKeepsState(heard, now);
        var kept := Expire(heard, now);
        if kept.open && read.count != READ_BUDGET {
          BufferFits(kept);
          SendingKeepsAlignment(kept, now, write);
        }
      }
    }
  }

  lemma ExpiringKeepsState(l: Link, now: Time)
    requires l.open
    ensures var r := Expire(l, now); if r.open then r.session == l.session else r.session.state.Failed?
  {
  }

  /**
   * An alignment ends in three ways only: with a new generation, with its link, or when the controller was not
   * heard in time.
   */
  lemma AlignmentLasts(l: Link, a: Action)
    requires Inv(l) && l.session.state.Aligned?
    ensures var r := Do(l, a).0;
            r.session.state.Aligned?
            <==> && r.open && LastGeneration(r.log) == LastGeneration(l.log)
                 && (a.Service? || a.Offering? ==> Recent(l.log, l.settings.session.heartbeatTimeout, a.now))
  {
    match a {
      case Start(generation) =>
        StartsAnew(l, generation);
      case End =>
        Snoc(l.log, Closed);
      case Service(now, read, write) =>
        ServiceKeepsAlignment(l, now, read, write);
        PollHolds(l, now, read, write);
        BufferFits(l);
        PollingGoesOn(l, now, read, write);
        OnwardKeepsGeneration(l, Poll(l, now, read, write).0);
      case Offering(e, now) =>
        PublishOnlyOffers(l, e, now);
        Snoc(l.log, Offered(e, now, Publish(l, e, now).1.Queued?));
        assert Agrees(l.settings, l.session, l.log);
        FreshAgrees(l.settings, l.session, l.log, now);
    }
  }

  lemma StartsAnew(l: Link, generation: nat)
    requires Inv(l) && l.session.state.Aligned?
    ensures var r := StartSession(l, generation).0;
            r.session.state.Aligned? <==> r.open && LastGeneration(r.log) == LastGeneration(l.log)
  {
    assert Agrees(l.settings, l.session, l.log);
    Snoc(l.log, Closed);
    Snoc(l.log, Began(generation));
    hide Inv, Agrees;
  }

  lemma OnwardKeepsGeneration(l: Link, r: Link)
    requires Inv(l) && Inv(r) && Onward(l, r)
    ensures LastGeneration(r.log) == LastGeneration(l.log)
  {
    assert Agrees(l.settings, l.session, l.log) && Agrees(r.settings, r.session, r.log);
  }

  // ---- offers

  /** What the link does with an offer, given everything that happened before. */
  lemma OffersAreDecided(l: Link, e: Estimate, now: Time)
    requires Inv(l)
    ensures var (r, result) := Consider(l, e, now);
            var may := l.open && l.started && l.session.CanPublish(now);
            && (result.Held? <==> !may)
            && (result.Queued? <==>
                  may && Presentable(l.settings, l.log, e, now) && l.kind.NoPending? && !ControlDue(l, now))
            && (result.OutOfOrder? ==>
                  LastQueued(l.log).Some? && e.timestamp <= LastQueued(l.log).value.timestamp)
            && (result.Busy? ==> !l.kind.NoPending? || ControlDue(l, now))
            && (result.PublishThrew? ==> now < 0)
  {
    assert GenerationAgrees(l.settings, l.session, l.log) && l.lastEstimate == StampOf(LastQueued(l.log));
    assert l.settings.session == l.session.config && l.settings.session.Valid();
    ConsiderOutcome(l, e, now);
    if 0 <= e.timestamp && l.kind.NoPending? {
      MeasurementFits(l, e, l.settings.transform(e), now);
    }
    hide Inv, LastQueued, LastGeneration, Generations, Session.CanPublish, QueueMeasurement, FitsWire;
  }

  /** The buffer holds the whole measurement of this estimate, and nothing of it is written yet. */
  ghost predicate Carries(l: Link, e: Estimate) {
    && l.kind.MeasurementPending? && l.offset == 0 && l.timestamp == e.timestamp
    && l.deadline == e.timestamp + l.settings.session.maxEstimateAge
    && MeasurementCargo(l.settings, l.cargo, e, l.session.resetCounter)
    && l.bytes == Encode(l.settings.codec, l.cargo)
  }

  lemma QueuedIsHeld(l: Link, e: Estimate, now: Time)
    requires Inv(l) && Consider(l, e, now).1.Queued?
    ensures Carries(Consider(l, e, now).0, e)
  {
    hide Lawful, Agrees, WireBytes, OrderAgrees, LastQueued, LastWrite, MeasurementCargo, Encode, FitsWire;
    MeasurementFits(l, e, l.settings.transform(e), now);
    hide QueueMeasurement;
  }

  /**
   * An offered estimate is queued exactly when publication is permitted on a started, open link, the estimate
   * is of the current generation, in time, usable, newer than the last one queued and fits the wire, the
   * buffer is free and no control traffic is due; the buffer then holds its measurement. Otherwise nothing but
   * the session's look at the time changes.
   */
  lemma OffersAreQueuedExactly(settings: Settings, actions: seq<Action>, e: Estimate, now: Time)
    requires settings.Valid()
    ensures var l := Run(settings, actions).(session := Run(settings, actions).session.Tick(now));
            var (r, result) := Publish(Run(settings, actions), e, now);
            var may := l.open && l.started && LastGeneration(l.log).Some?
                       && Recent(l.log, settings.session.heartbeatTimeout, now)
                       && !l.session.state.Failed? && (l.session.state.Aligned? || Disarmed(l.log));
            && (result.Held? <==> !may)
            && (result.Queued? <==>
                  may && Presentable(settings, l.log, e, now) && l.kind.NoPending? && !ControlDue(l, now))
            && (if result.Queued? then Carries(r, e) && LastQueued(r.log) == Some(e)
                else r == l.(log := l.log + [Offered(e, now, false)]))
  {
    var before := Run(settings, actions);
    hide Run;
    TickHolds(before, now);
    var l := before.(session := before.session.Tick(now));
    OffersAreDecided(l, e, now);
    PermittedExactly(l, now);
    ConsiderOutcome(l, e, now);
    Snoc(l.log, Offered(e, now, true));
    hide Inv, Consider, Presentable, ControlDue, Recent, Carries;
    if Consider(l, e, now).1.Queued? {
      QueuedIsHeld(l, e, now);
      PublishOnlyOffers(before, e, now);
      OnlyTheLogGrows(Consider(l, e, now).0, Offered(e, now, true), e);
    }
  }

  lemma OnlyTheLogGrows(l: Link, event: Event, e: Estimate)
    requires Carries(l, e)
    ensures Carries(l.(log := l.log + [event]), e)
  {
  }

  lemma ClosedStays(l: Link, a: Action)
    requires Inv(l) && !l.open
    ensures !Do(l, a).0.open
  {
    hide Lawful, Agrees;
  }

  /** The call starts no session and finds the controller heard in time. */
  ghost predicate Attended(l: Link, a: Action) {
    !a.Start? && (a.Service? || a.Offering? ==> Recent(l.log, l.settings.session.heartbeatTimeout, a.now))
  }

  lemma {:induction false} StaysAligned(settings: Settings, actions: seq<Action>, n: nat)
    requires settings.Valid() && n <= |actions| && Run(settings, actions[..n]).session.state.Aligned?
    requires forall k :: n <= k < |actions| ==> Attended(Run(settings, actions[..k]), actions[k])
    requires Run(settings, actions).open
    ensures Run(settings, actions).session.state.Aligned?
    decreases |actions|
  {
    hide Inv, Attended;
    if n == |actions| {
      assert actions[..n] == actions;
    } else {
      var rest, last := actions[..|actions| - 1], actions[|actions| - 1];
      var l := Run(settings, rest);
      assert rest[..n] == actions[..n];
      assert forall k :: n <= k < |rest| ==> rest[..k] == actions[..k] && rest[k] == actions[k];
      if !l.open {
        ClosedStays(l, last);
      }
      StaysAligned(settings, rest, n);
      assert Attended(l, last);
      AttendedKeepsAlignment(l, last);
    }
  }

  lemma AttendedKeepsAlignment(l: Link, a: Action)
    requires Inv(l) && l.session.state.Aligned? && Attended(l, a) && Do(l, a).0.open
    ensures Do(l, a).0.session.state.Aligned?
  {
    hide Inv, Onward;
    AlignmentLasts(l, a);
    UsingGoesOn(l, a);
    OnwardKeepsGeneration(l, Do(l, a).0);
  }

  /**
   * An aligned vehicle is served, armed or not: while every call finds the controller heard in time and the
   * link stays open, each usable, newer estimate is queued as soon as the buffer is free and our heartbeat is
   * not due.
   */
  lemma AlignedVehicleIsServed(settings: Settings, actions: seq<Action>, n: nat, e: Estimate, now: Time)
    requires settings.Valid() && n <= |actions| && Run(settings, actions[..n]).session.state.Aligned?
    requires forall k :: n <= k < |actions| ==> Attended(Run(settings, actions[..k]), actions[k])
    requires var l := Run(settings, actions);
             && l.open && l.started && l.kind.NoPending? && now < l.nextHeartbeat
             && Recent(l.log, settings.session.heartbeatTimeout, now) && Presentable(settings, l.log, e, now)
    ensures var (r, result) := Publish(Run(settings, actions), e, now); result.Queued? && Carries(r, e)
  {
    StaysAligned(settings, actions, n);
    OffersAreQueuedExactly(settings, actions, e, now);
    var l := Run(settings, actions);
    assert Agrees(settings, l.session, l.log);
    hide Run, Inv, Agrees, Presentable, Carries, Publish;
    FreshAgrees(settings, l.session, l.log, now);
    assert l.session.Tick(now) == l.session && l.(session := l.session) == l;
  }
}
