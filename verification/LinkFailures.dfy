/**
 * The attempt count of a session that fails: it stays the number of unresolved commands, unless an
 * aligned session is cut off with its link.
 */
module LinkFailures {
  import opened Basics
  import opened Sessions
  import opened LinkModel
  import opened LinkHistory
  import opened SessionProofs
  import opened LinkProofs
  import opened LinkTheorems

  /** The count is right exactly when the session is not aligned; a failed session is not. */
  ghost predicate Tracks(v: Session, log: seq<Event>) {
    Counts(v, log) <==> !v.state.Aligned?
  }

  lemma LiveSessionTracks(s: Settings, v: Session, log: seq<Event>)
    requires Agrees(s, v, log) && !v.state.Failed?
    ensures Tracks(v, log)
  {
  }

  lemma FailedTracks(v: Session, log: seq<Event>)
    requires Tracks(v, log) && v.state.Failed?
    ensures Counts(v, log)
  {
  }

  /** Losing the controller or running out of time fails a session only with its count right. */
  lemma TickTracks(s: Settings, v: Session, log: seq<Event>, now: Time)
    requires Agrees(s, v, log) && Tracks(v, log)
    ensures Tracks(v.Tick(now), log)
  {
  }

  /** So does arming while a request is outstanding. */
  lemma HeartbeatTracks(s: Settings, v: Session, log: seq<Event>, e: Event)
    requires Agrees(s, v, log) && Tracks(v, log) && e.Heard?
    ensures Tracks(v.Heartbeat(e.armed, e.now), log + [e])
  {
    TickTracks(s, v, log, e.now);
    Snoc(log, e);
    HeartbeatKeepsAgreement(s, v, log, e);
    var r := v.Heartbeat(e.armed, e.now);
    if !r.state.Failed? {
      LiveSessionTracks(s, r, log + [e]);
    }
  }

  /** And a rejection, or a retry with no attempt left. */
  lemma ReplyTracks(s: Settings, v: Session, log: seq<Event>, e: Event)
    requires Agrees(s, v, log) && Tracks(v, log)
    requires e.Replied? && e.honoured == v.Honours(e.now) && Answers(s, e.message) && Says(e.message, e.result)
    ensures Tracks(v.Acknowledge(e.result, e.now), log + [e])
  {
    TickTracks(s, v, log, e.now);
    Snoc(log, e);
    ReplyKeepsAgreement(s, v, log, e);
    var r := v.Acknowledge(e.result, e.now);
    if !r.state.Failed? {
      LiveSessionTracks(s, r, log + [e]);
    }
  }

  /** Every way the policy itself fails a session leaves its count right. */
  lemma PolicyFailsWithTheCountRight(s: Settings, v: Session, log: seq<Event>, heard: Event, replied: Event, now: Time)
    requires Agrees(s, v, log) && !v.state.Failed?
    requires heard.Heard? && replied.Replied? && replied.honoured == v.Honours(replied.now)
    requires Answers(s, replied.message) && Says(replied.message, replied.result)
    ensures v.Tick(now).state.Failed? ==> Counts(v.Tick(now), log)
    ensures var r := v.Heartbeat(heard.armed, heard.now); r.state.Failed? ==> Counts(r, log + [heard])
    ensures var r := v.Acknowledge(replied.result, replied.now); r.state.Failed? ==> Counts(r, log + [replied])
  {
    hide Agrees, Counts, Session.Tick, Session.Heartbeat, Session.Acknowledge;
    LiveSessionTracks(s, v, log);
    TickTracks(s, v, log, now);
    HeartbeatTracks(s, v, log, heard);
    ReplyTracks(s, v, log, replied);
  }

  ghost predicate LinkTracks(l: Link) {
    Tracks(l.session, l.log)
  }

  lemma Agreement(l: Link)
    requires Inv(l)
    ensures Agrees(l.settings, l.session, l.log) && (!l.session.state.Failed? ==> l.open && LinkTracks(l))
  {
    if !l.session.state.Failed? {
      LiveSessionTracks(l.settings, l.session, l.log);
    }
  }

  lemma ReceiveOneTracks(l: Link, p: Parsed, now: Time)
    requires Inv(l) && l.open && LinkTracks(l)
    ensures LinkTracks(ReceiveOne(l, p, now))
  {
    hide Inv, Tracks, Agrees;
    Agreement(l);
    if p.Received? && p.message.sender == l.settings.controller {
      match p.message {
        case HeartbeatMessage(_, ardupilot, groundStation, armed) =>
          if ardupilot && !groundStation {
            HeartbeatTracks(l.settings, l.session, l.log, Heard(p.message, armed, now));
          }
        case AckMessage(_, _, _, _, _) =>
          var reply := ReplyFor(l.settings, p.message);
          if reply.Some? {
            ReplyTracks(l.settings, l.session, l.log,
                        Replied(p.message, reply.value, now, l.session.Honours(now)));
          }
        case OtherMessage(_) =>
      }
    }
  }

  lemma {:induction false} ReceiveAllTracks(l: Link, parsed: seq<Parsed>, now: Time)
    requires Inv(l) && l.open && LinkTracks(l)
    ensures LinkTracks(ReceiveAll(l, parsed, now))
  {
    hide Inv, LinkTracks, ReceiveOne;
    if parsed == [] {
    } else {
      var rest := parsed[..|parsed| - 1];
      ReceiveAllTracks(l, rest, now);
      ReceiveAllHolds(l, rest, now);
      ReceiveOneTracks(ReceiveAll(l, rest, now), parsed[|parsed| - 1], now);
    }
  }

  /** Closing the link keeps the count right if and only if the session was not aligned. */
  lemma CloseCountsUnlessAligned(l: Link)
    requires LinkTracks(l)
    ensures Counts(Close(l).session, Close(l).log) <==> !l.session.state.Aligned?
  {
    Snoc(l.log, Closed);
  }

  lemma AfterReadingTracks(l: Link, now: Time, read: ReadOutcome)
    requires Inv(l) && l.open && LinkTracks(l)
    ensures var r := AfterReading(l, now, read); Inv(r) && r.open && LinkTracks(r)
  {
    hide Inv, Agrees, ReceiveAll, Tracks;
    Agreement(l);
    TickHolds(l, now);
    TickTracks(l.settings, l.session, l.log, now);
    var ticked := l.(session := l.session.Tick(now));
    if read.Read? {
      ReceiveAllHolds(ticked, read.parsed, now);
      ReceiveAllTracks(ticked, read.parsed, now);
    }
  }

  /** A poll that fails the session does so by closing the link around the state after its reading. */
  lemma PollFailsByClosing(l: Link, now: Time, read: ReadOutcome, write: WriteOutcome)
    requires l.open && l.offset <= |l.bytes|
    ensures var r, heard := Poll(l, now, read, write).0, AfterReading(l, now, read);
            r.session.state.Failed? ==> r.session == heard.session.Fail() && r.log == heard.log + [Closed]
  {
    hide ReceiveAll;
    if read.Read? {
      var heard := AfterReading(l, now, read);
      var kept := Expire(heard, now);
      if !heard.session.state.Failed? && kept.open && read.count != READ_BUDGET {
        SendFailsByClosing(kept, now, write);
      }
    }
  }

  lemma SendFailsByClosing(l: Link, now: Time, write: WriteOutcome)
    requires l.offset <= |l.bytes| && !l.session.state.Failed?
    ensures var r := Send(l, now, write).0;
            r.session.state.Failed? ==> r.session == l.session.Fail() && r.log == l.log + [Closed]
  {
    hide Fill, Offer;
    FillOnlyQueues(l, now);
    OfferFailsByClosing(Fill(l, now).0, now, write);
  }

  lemma FillOnlyQueues(l: Link, now: Time)
    ensures Fill(l, now).0.session == l.session && Fill(l, now).0.log == l.log
  {
  }

  lemma OfferFailsByClosing(l: Link, now: Time, write: WriteOutcome)
    requires l.offset <= |l.bytes| && !l.session.state.Failed?
    ensures var r := Offer(l, now, write).0;
            r.session.state.Failed? ==> r.session == l.session.Fail() && r.log == l.log + [Closed]
  {
    hide Transmit;
    if write.Willing? {
      var moved := Transmit(l, Accepts(l, write.willing), now);
      assert moved.session == l.session by {
        SessionOfTransmit(l, Accepts(l, write.willing), now);
      }
    }
  }

  lemma SessionOfTransmit(l: Link, count: nat, now: Time)
    requires l.offset + count <= |l.bytes|
    ensures Transmit(l, count, now).session == l.session
  {
  }

  // ---- over whole runs

  /** The call finds the session aligned where it might have to close the link. */
  predicate CutsOffAlignment(l: Link, a: Action) {
    match a
    case Start(_) => l.session.state.Aligned?
    case End => l.session.state.Aligned?
    case Service(now, read, _) => AfterReading(l, now, read).session.state.Aligned?
    case Offering(_, _) => false
  }

  lemma FailingStepCounts(l: Link, a: Action)
    requires Inv(l) && !l.session.state.Failed? && Do(l, a).0.session.state.Failed?
    ensures var r := Do(l, a).0; Counts(r.session, r.log) <==> !CutsOffAlignment(l, a)
  {
    hide Inv, Tracks, Agrees, Poll, Publish, AfterReading, ReceiveAll, Unresolved;
    Agreement(l);
    BufferFits(l);
    match a {
      case Start(_) => CloseCountsUnlessAligned(l);
      case End => CloseCountsUnlessAligned(l.(started := false));
      case Service(now, read, write) =>
        AfterReadingTracks(l, now, read);
        PollFailsByClosing(l, now, read, write);
        CloseCountsUnlessAligned(AfterReading(l, now, read));
      case Offering(estimate, now) =>
        PublishOnlyOffers(l, estimate, now);
        TickTracks(l.settings, l.session, l.log, now);
        FailedTracks(l.session.Tick(now), l.log);
        Snoc(l.log, Offered(estimate, now, Publish(l, estimate, now).1.Queued?));
    }
  }

  /** The two numbers the count compares. */
  ghost predicate SameCount(l: Link, r: Link) {
    r.session.state.Failed? && r.session.attempts == l.session.attempts && Unresolved(r.log) == Unresolved(l.log)
  }

  lemma QuietSameCount(l: Link, r: Link, e: Event)
    requires l.session.state.Failed? && r.session.state.Failed? && r.session.attempts == l.session.attempts
    requires e.Closed? || e.Heard? || e.Offered? || (e.Replied? && !e.honoured)
    requires r.log == l.log || r.log == l.log + [e]
    ensures SameCount(l, r)
  {
    Snoc(l.log, e);
  }

  lemma {:induction false} ReceivingKeepsCount(l: Link, parsed: seq<Parsed>, now: Time)
    requires l.session.state.Failed?
    ensures SameCount(l, ReceiveAll(l, parsed, now))
  {
    if parsed == [] {
    } else {
      var before := ReceiveAll(l, parsed[..|parsed| - 1], now);
      ReceivingKeepsCount(l, parsed[..|parsed| - 1], now);
      ReceivingOneKeepsCount(before, parsed[|parsed| - 1], now);
    }
  }

  lemma ReceivingOneKeepsCount(l: Link, p: Parsed, now: Time)
    requires l.session.state.Failed?
    ensures SameCount(l, ReceiveOne(l, p, now))
  {
    if p.Received? && p.message.sender == l.settings.controller {
      match p.message {
        case HeartbeatMessage(_, _, _, armed) =>
          QuietSameCount(l, Hear(l, p.message, armed, now), Heard(p.message, armed, now));
        case AckMessage(_, _, _, _, _) =>
          var reply := ReplyFor(l.settings, p.message);
          if reply.Some? {
            QuietSameCount(l, Reply(l, p.message, reply.value, now), Replied(p.message, reply.value, now, false));
          }
        case OtherMessage(_) =>
      }
    }
  }

  lemma FailedStepKeepsCount(l: Link, a: Action)
    requires Inv(l) && l.session.state.Failed?
    ensures SameCount(l, Do(l, a).0)
  {
    match a {
      case Start(_) => QuietSameCount(l, Do(l, a).0, Closed);
      case End => QuietSameCount(l, Do(l, a).0, Closed);
      case Offering(estimate, now) =>
        PublishOnlyOffers(l, estimate, now);
        QuietSameCount(l, Do(l, a).0, Offered(estimate, now, Publish(l, estimate, now).1.Queued?));
      case Service(now, read, write) =>
        if l.open {
          var heard := AfterReading(l, now, read);
          if read.Read? {
            ReceivingKeepsCount(l, read.parsed, now);
          }
          QuietSameCount(heard, Close(heard), Closed);
        }
    }
  }

  lemma {:induction false} CountStaysAfterFailure(settings: Settings, actions: seq<Action>, n: nat)
    requires settings.Valid() && n <= |actions| && Run(settings, actions[..n]).session.state.Failed?
    ensures SameCount(Run(settings, actions[..n]), Run(settings, actions))
    decreases |actions|
  {
    if n == |actions| {
      assert actions[..n] == actions;
    } else {
      var rest := actions[..|actions| - 1];
      assert rest[..n] == actions[..n];
      CountStaysAfterFailure(settings, rest, n);
      FailedStepKeepsCount(Run(settings, rest), actions[|actions| - 1]);
    }
  }

  /**
   * The count after a failure, over every run: once the call at `n` has failed the session, its attempts
   * are the unresolved commands for the rest of the run if and only if that call did not cut off an
   * aligned session.
   */
  lemma FailureCountsUnlessAligned(settings: Settings, actions: seq<Action>, n: nat)
    requires settings.Valid() && n < |actions|
    requires !Run(settings, actions[..n]).session.state.Failed?
    requires Run(settings, actions[..n + 1]).session.state.Failed?
    ensures var r := Run(settings, actions);
            && r.session.state.Failed?
            && (r.session.attempts == Unresolved(r.log)
                <==> !CutsOffAlignment(Run(settings, actions[..n]), actions[n]))
  {
    assert actions[..n + 1][..n] == actions[..n];
    FailingStepCounts(Run(settings, actions[..n]), actions[n]);
    CountStaysAfterFailure(settings, actions, n + 1);
  }
}
