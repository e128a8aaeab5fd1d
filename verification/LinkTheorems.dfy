/**
 * What a flight controller may rely on, whatever calls the application makes, whatever arrives, however
 * few bytes the stream takes at a time, and wherever it fails.
 */
module LinkTheorems {
  import opened Basics
  import opened Estimates
  import opened Sessions
  import opened LinkModel
  import opened LinkHistory
  import opened SessionProofs
  import opened LinkProofs

  /** The public calls on a link, with what the stream does during each. */
  datatype Action =
    | Start(generation: nat)
    | End
    | Service(now: Time, read: ReadOutcome, write: WriteOutcome)
    | Offering(estimate: Estimate, now: Time)

  /** The link after a call, and whether a `logic_error` (or an absent generation) escaped from it. */
  ghost function Do(l: Link, a: Action): (r: (Link, bool))
    requires Inv(l)
    ensures Inv(r.0) && r.0.settings == l.settings
  {
    match a
    case Start(generation) => StartHolds(l, generation); (StartSession(l, generation).0, false)
    case End => EndHolds(l); (EndSession(l), false)
    case Service(now, read, write) =>
      PollHolds(l, now, read, write);
      var (r, ok) := Poll(l, now, read, write); (r, !ok)
    case Offering(estimate, now) =>
      PublishHolds(l, estimate, now);
      var (r, result) := Publish(l, estimate, now); (r, result.PublishThrew?)
  }

  /** The link after a whole run: every reachable link satisfies the invariant. */
  ghost function Run(settings: Settings, actions: seq<Action>): (l: Link)
    requires settings.Valid()
    ensures Inv(l) && l.settings == settings
  {
    if actions == [] then OpenedHolds(settings); Opened(settings)
    else Do(Run(settings, actions[..|actions| - 1]), actions[|actions| - 1]).0
  }

  lemma RunSnoc(settings: Settings, actions: seq<Action>, a: Action)
    requires settings.Valid()
    ensures Run(settings, actions + [a]) == Do(Run(settings, actions), a).0
  {
    assert (actions + [a])[..|actions|] == actions;
  }

  // ---- wire integrity

  lemma {:induction false} LawfulPrefix(s: Settings, log: seq<Event>, n: nat)
    requires Lawful(s, log) && n <= |log|
    ensures Lawful(s, log[..n])
  {
    forall i | 0 <= i < n
      ensures EventRule(s, log[..n][..i], log[..n][i])
    {
      assert log[..n][..i] == log[..i] && EventRule(s, log[..i], log[i]);
    }
  }

  lemma SnocPackets(log: seq<Event>, e: Event)
    ensures WholePackets(log + [e]) == WholePackets(log) + if e.Completes() then e.bytes else []
    ensures e.Wrote? ==> Remnant(log + [e]) == if e.offset + e.count < |e.bytes| then e.bytes[..e.offset + e.count] else []
    ensures !e.Wrote? ==> Remnant(log + [e]) == Remnant(log)
  {
    Snoc(log, e);
  }

  lemma Resume(whole: seq<Byte>, bytes: seq<Byte>, offset: nat, end: nat)
    requires offset <= end <= |bytes|
    ensures whole + bytes[..offset] + bytes[offset..end] == whole + bytes[..end]
    ensures whole + bytes[..|bytes|] == whole + bytes
  {
    assert bytes[..offset] + bytes[offset..end] == bytes[..end];
    assert bytes[..|bytes|] == bytes;
  }

  lemma RemnantIsSent(log: seq<Event>, e: Event)
    requires e.Wrote? && Continues(log, e) && e.offset <= |e.bytes|
    ensures Remnant(log) == e.bytes[..e.offset]
  {
  }

  /** One more write carries the wire from one well-formed state to the next. */
  lemma WireStep(log: seq<Event>, e: Event)
    requires WireBytes(log) == WholePackets(log) + Remnant(log)
    requires e.Wrote? && Continues(log, e) && e.offset + e.count <= |e.bytes|
    ensures WireBytes(log + [e]) == WholePackets(log + [e]) + Remnant(log + [e])
  {
    hide WireBytes, WholePackets, Remnant, Continues;
    SnocWire(log, e);
    SnocPackets(log, e);
    RemnantIsSent(log, e);
    Resume(WholePackets(log), e.bytes, e.offset, e.offset + e.count);
  }

  lemma {:induction false} LawfulWire(s: Settings, log: seq<Event>)
    requires Lawful(s, log)
    ensures WireBytes(log) == WholePackets(log) + Remnant(log)
  {
    if log == [] {
    } else {
      var rest, e := log[..|log| - 1], log[|log| - 1];
      LawfulPrefix(s, log, |log| - 1);
      LawfulWire(s, rest);
      assert EventRule(s, rest, e) && log == rest + [e];
      if e.Wrote? {
        WireStep(rest, e);
      } else {
        SnocPackets(rest, e);
        SnocWire(rest, e);
      }
    }
  }

  /**
   * Wire integrity: the bytes on the wire are always whole packet buffers followed by the sent part of
   * one more, which on an open link is exactly the sent part of the pending buffer.
   */
  lemma WireIntegrity(settings: Settings, actions: seq<Action>)
    requires settings.Valid()
    ensures var l := Run(settings, actions);
            && l.wire == WholePackets(l.log) + Remnant(l.log)
            && (l.open ==> l.offset <= |l.bytes| && Remnant(l.log) == l.bytes[..l.offset])
            && l.bytes == Encode(settings.codec, l.cargo)
  {
    var l := Run(settings, actions);
    LawfulWire(settings, l.log);
  }

  /**
   * No splicing: two writes in a row either belong to different buffers, the first of them complete, or
   * the second resumes the first at the very next byte. An abandoned packet is the last thing written.
   */
  lemma NoSplicing(settings: Settings, actions: seq<Action>, i: nat, j: nat)
    requires settings.Valid()
    requires var log := Run(settings, actions).log;
             && i < j < |log| && log[i].Wrote? && log[j].Wrote? && forall k :: i < k < j ==> !log[k].Wrote?
    ensures var log := Run(settings, actions).log;
            if log[i].Completes() then log[j].offset == 0
            else && log[j].offset == log[i].offset + log[i].count && log[j].bytes == log[i].bytes
                 && log[j].kind == log[i].kind && log[j].timestamp == log[i].timestamp
                 && forall k :: i < k < j ==> Idles(log[k])
  {
    var l := Run(settings, actions);
    assert Lawful(settings, l.log);
    hide Run, Inv;
    WritesResume(settings, l.log, i, j);
    if !l.log[i].Completes() {
      forall k | i < k < j
        ensures Idles(l.log[k])
      {
        UnfinishedWriteHolds(settings, l.log, i, k);
        NotClosedBefore(settings, l.log, k, j);
      }
    }
  }

  /** Nothing but reception and offers that are turned away. */
  predicate Idles(e: Event) {
    e.Heard? || e.Replied? || (e.Offered? && !e.queued)
  }

  lemma WritesResume(s: Settings, log: seq<Event>, i: nat, j: nat)
    requires Lawful(s, log)
    requires i < j < |log| && log[i].Wrote? && log[j].Wrote? && forall k :: i < k < j ==> !log[k].Wrote?
    ensures if log[i].Completes() then log[j].offset == 0
            else && log[j].offset == log[i].offset + log[i].count && log[j].bytes == log[i].bytes
                 && log[j].kind == log[i].kind && log[j].timestamp == log[i].timestamp
  {
    assert EventRule(s, log[..j], log[j]);
    hide Lawful;
    LastWriteIs(log, i, j);
    hide LastWrite, MeasurementRule, AlignmentRule, HeartbeatRule, Encode;
  }

  /** While a packet is half written nothing else goes on, unless the link closes and nothing is written again. */
  lemma UnfinishedWriteHolds(s: Settings, log: seq<Event>, i: nat, j: nat)
    requires Lawful(s, log)
    requires i < j < |log| && log[i].Wrote? && !log[i].Completes() && forall k :: i < k <= j ==> !log[k].Wrote?
    ensures Idles(log[j]) || log[j].Closed?
  {
    assert EventRule(s, log[..j], log[j]);
    hide Lawful;
    LastWriteIs(log, i, j);
    hide LastWrite, Permitted, Presentable;
  }

  lemma NotClosedBefore(s: Settings, log: seq<Event>, k: nat, j: nat)
    requires Lawful(s, log) && k < j < |log| && log[j].Wrote?
    ensures !log[k].Closed?
  {
    assert EventRule(s, log[..j], log[j]);
    assert log[..j][k] == log[k];
  }

  lemma {:induction false} LastWriteIs(log: seq<Event>, i: nat, n: nat)
    requires i < n <= |log| && log[i].Wrote? && forall k :: i < k < n ==> !log[k].Wrote?
    ensures LastWrite(log[..n]) == Some(log[i])
  {
    assert log[..n][..n - 1] == log[..n - 1];
    if n > i + 1 {
      LastWriteIs(log, i, n - 1);
    }
  }

  // ---- failure is silence

  lemma FailedStepIsSilent(l: Link, a: Action)
    requires Inv(l) && l.session.state.Failed?
    ensures var r := Do(l, a).0; r.session.state.Failed? && r.wire == l.wire
  {
    if a.Service? && l.open && a.read.Read? {
      var ticked := l.(session := l.session.Tick(a.now));
      TickHolds(l, a.now);
      ReceivingFailed(ticked, a.read.parsed, a.now);
    }
  }

  lemma {:induction false} ReceivingFailed(l: Link, parsed: seq<Parsed>, now: Time)
    requires l.session.state.Failed?
    ensures ReceiveAll(l, parsed, now).session.state.Failed?
  {
    if parsed == [] {
    } else {
      ReceivingFailed(l, parsed[..|parsed| - 1], now);
      var r := ReceiveAll(l, parsed[..|parsed| - 1], now);
      assert r.session.Tick(now).state.Failed?;
    }
  }

  /** Once a session has failed no byte follows, whatever is called afterwards. */
  lemma {:induction false} FailureSilencesTheWire(settings: Settings, actions: seq<Action>, n: nat)
    requires settings.Valid() && n <= |actions|
    requires Run(settings, actions[..n]).session.state.Failed?
    ensures Run(settings, actions).session.state.Failed?
    ensures Run(settings, actions).wire == Run(settings, actions[..n]).wire
  {
    if n == |actions| {
      assert actions[..n] == actions;
    } else {
      var rest := actions[..|actions| - 1];
      assert rest[..n] == actions[..n];
      FailureSilencesTheWire(settings, rest, n);
      FailedStepIsSilent(Run(settings, rest), actions[|actions| - 1]);
    }
  }

  /** A poll whose read filled the whole budget writes nothing: an arming heartbeat may still be unread. */
  lemma FullReadWritesNothing(l: Link, now: Time, parsed: seq<Parsed>, write: WriteOutcome)
    requires l.offset <= |l.bytes|
    ensures Poll(l, now, Read(READ_BUDGET, parsed), write).0.wire == l.wire
  {
    var heard := ReceiveAll(l.(session := l.session.Tick(now)), parsed, now);
    assert Expire(heard, now).wire == l.wire;
  }

  // ---- justification

  /**
   * Armed publication is justified: measurement bytes are written while the last heartbeat said armed
   * only after a whole measurement, then a whole alignment command, then the controller's own message
   * accepting it while disarmed, all of the same generation and with every heartbeat since then within the
   * timeout.
   */
  lemma ArmedPublicationIsJustified(settings: Settings, actions: seq<Action>, j: nat)
    requires settings.Valid()
    requires var log := Run(settings, actions).log;
             j < |log| && log[j].Wrote? && log[j].kind.MeasurementPending?
    ensures var log, timeout := Run(settings, actions).log, settings.session.heartbeatTimeout;
            && Recent(log[..j], timeout, log[j].now)
            && (LastHeard(log[..j]).value.armed ==>
                  exists m: nat, a: nat, k: nat :: m < a < k < j
                    && log[m].CompletesMeasurement() && log[a].CompletesAlignment()
                    && log[k].Replied? && log[k].honoured && Disarmed(log[..k])
                    && Answers(settings, log[k].message) && log[k].message.result.ResultAccepted?
                    && (forall i :: m <= i < j ==> !log[i].Began?)
                    && (forall i :: m <= i < j && log[i].Heard? ==> Recent(log[..i], timeout, log[i].now)))
  {
    var l := Run(settings, actions);
    assert Lawful(settings, l.log);
    hide Run, Inv;
    JustifiedWrite(settings, l.log, j);
  }

  /** The evidence behind one write, in indices of the whole log. */
  lemma JustifiedWrite(s: Settings, log: seq<Event>, j: nat)
    requires Lawful(s, log) && j < |log| && log[j].Wrote? && log[j].kind.MeasurementPending?
    ensures var timeout := s.session.heartbeatTimeout;
            && Recent(log[..j], timeout, log[j].now)
            && (LastHeard(log[..j]).value.armed ==>
                  exists m: nat, a: nat, k: nat :: m < a < k < j
                    && log[m].CompletesMeasurement() && log[a].CompletesAlignment()
                    && log[k].Replied? && log[k].honoured && Disarmed(log[..k])
                    && Answers(s, log[k].message) && log[k].message.result.ResultAccepted?
                    && (forall i :: m <= i < j ==> !log[i].Began?)
                    && (forall i :: m <= i < j && log[i].Heard? ==> Recent(log[..i], timeout, log[i].now)))
  {
    var timeout := s.session.heartbeatTimeout;
    assert EventRule(s, log[..j], log[j]);
    if LastHeard(log[..j]).value.armed {
      var m: nat, a: nat, k: nat :| Granted(log[..j], timeout, m, a, k);
      assert EventRule(s, log[..k], log[k]);
      GrantedInWhole(log, j, timeout, m, a, k);
    }
  }

  lemma GrantedInWhole(log: seq<Event>, j: nat, timeout: Time, m: nat, a: nat, k: nat)
    requires j <= |log| && Granted(log[..j], timeout, m, a, k)
    ensures m < a < k < j && log[m].CompletesMeasurement() && log[a].CompletesAlignment()
    ensures log[k].Replied? && log[k].result.Accepted? && log[k].honoured
    ensures forall i :: m <= i < j ==> !log[i].Began?
    ensures forall i :: m <= i < j && log[i].Heard? ==> Recent(log[..i], timeout, log[i].now)
  {
    hide Recent;
    var before := log[..j];
    assert before[m] == log[m] && before[a] == log[a] && before[k] == log[k];
    forall i | m <= i < j
      ensures !log[i].Began?
    {
      assert log[i] == before[i];
    }
    forall i | m <= i < j && log[i].Heard?
      ensures Recent(log[..i], timeout, log[i].now)
    {
      assert before[..i] == log[..i] && before[i] == log[i];
      assert Recent(before[..i], timeout, before[i].now);
    }
  }

  /**
   * Freshness at write time: however long a measurement waited in the buffer, its bytes leave no later
   * than the age limit after its timestamp, stamped with the reset byte of the current generation.
   */
  lemma WrittenMeasurementsAreFresh(settings: Settings, actions: seq<Action>, j: nat)
    requires settings.Valid()
    requires var log := Run(settings, actions).log;
             j < |log| && log[j].Wrote? && log[j].kind.MeasurementPending?
    ensures var log := Run(settings, actions).log;
            && log[j].now - log[j].timestamp <= settings.session.maxEstimateAge
            && LastGeneration(log[..j]).Some? && LastQueued(log[..j]).Some?
            && MeasurementCargo(settings, log[j].cargo, LastQueued(log[..j]).value, ResetByte(settings, log[..j]))
            && log[j].bytes == Encode(settings.codec, log[j].cargo)
  {
    var log := Run(settings, actions).log;
    assert EventRule(settings, log[..j], log[j]);
  }

  lemma {:induction false} LastQueuedWasOffered(log: seq<Event>) returns (i: nat)
    requires LastQueued(log).Some?
    ensures i < |log| && log[i].Offered? && log[i].queued && log[i].estimate == LastQueued(log).value
    ensures SameGeneration(log, i)
  {
    var n := |log| - 1;
    if log[n].Offered? && log[n].queued {
      i := n;
    } else {
      i := LastQueuedWasOffered(log[..n]);
      assert log[i] == log[..n][i];
      assert forall k :: i <= k < n ==> log[k] == log[..n][k];
    }
  }

  /** The write at `j` tells the vehicle what the estimate offered at `i` says. */
  ghost predicate Tells(s: Settings, log: seq<Event>, i: nat, j: nat)
    requires i < j < |log| && log[j].Wrote?
  {
    && log[i].Offered? && SameGeneration(log[..j], i)
    && Permitted(s, log[..i], log[i].now) && Presentable(s, log[..i], log[i].estimate, log[i].now)
    && log[j].timestamp == log[i].estimate.timestamp
    && MeasurementCargo(s, log[j].cargo, log[i].estimate, ResetByte(s, log[..j]))
    && log[j].bytes == Encode(s.codec, log[j].cargo)
  }

  /**
   * The vehicle is told the truth: every measurement written carries the position and attitude (and, where
   * configured, the velocity) of an estimate offered in the current generation, in the vehicle's axes and under
   * the estimate's own stamp, and that estimate passed every check when it was offered.
   */
  lemma MeasurementsTellTheEstimate(settings: Settings, actions: seq<Action>, j: nat)
    requires settings.Valid()
    requires var log := Run(settings, actions).log;
             j < |log| && log[j].Wrote? && log[j].kind.MeasurementPending?
    ensures var log := Run(settings, actions).log; exists i: nat :: i < j && Tells(settings, log, i, j)
  {
    var l := Run(settings, actions);
    assert Lawful(settings, l.log);
    hide Run, Inv;
    var i := EstimateBehind(settings, l.log, j);
  }

  lemma EstimateBehind(s: Settings, log: seq<Event>, j: nat) returns (i: nat)
    requires Lawful(s, log) && j < |log| && log[j].Wrote? && log[j].kind.MeasurementPending?
    ensures i < j && Tells(s, log, i, j)
  {
    assert EventRule(s, log[..j], log[j]);
    i := LastQueuedWasOffered(log[..j]);
    assert log[..j][i] == log[i];
    assert EventRule(s, log[..i], log[i]);
    hide Permitted, Presentable, MeasurementCargo, Follows, SameGeneration, LastQueued, Encode, Continues;
  }

  /**
   * Order: within one generation every measurement on the wire is newer than the ones before it, in
   * nanoseconds strictly and in microseconds weakly, and no byte of a measurement is sent twice.
   */
  lemma MeasurementsAreOrdered(settings: Settings, actions: seq<Action>, i: nat, j: nat)
    requires settings.Valid()
    requires var log := Run(settings, actions).log;
             && i < j < |log| && log[i].Wrote? && log[i].kind.MeasurementPending?
             && log[j].Wrote? && log[j].kind.MeasurementPending? && forall k :: i < k < j ==> !log[k].Began?
    ensures var log := Run(settings, actions).log;
            && 0 <= log[i].timestamp <= log[j].timestamp
            && Microseconds(log[i].timestamp) <= Microseconds(log[j].timestamp)
            && (log[i].timestamp == log[j].timestamp ==> log[i].offset + log[i].count <= log[j].offset)
            && (log[i].Completes() && log[j].Completes() ==> log[i].timestamp < log[j].timestamp)
  {
    var l := Run(settings, actions);
    assert Lawful(settings, l.log);
    hide Run, Inv;
    LaterMeasurementFollows(settings, l.log, i, j);
    if l.log[i].timestamp == l.log[j].timestamp && l.log[i].Completes() {
      SameBufferGrows(settings, l.log, i, j);
    }
  }

  lemma LaterMeasurementFollows(s: Settings, log: seq<Event>, i: nat, j: nat)
    requires Lawful(s, log) && i < j < |log|
    requires log[i].Wrote? && log[i].kind.MeasurementPending? && log[j].Wrote? && log[j].kind.MeasurementPending?
    requires forall k :: i < k < j ==> !log[k].Began?
    ensures 0 <= log[i].timestamp <= log[j].timestamp
    ensures log[i].timestamp == log[j].timestamp ==> log[i].offset + log[i].count <= log[j].offset
  {
    var before := log[..j];
    assert EventRule(s, before, log[j]) && EventRule(s, log[..i], log[i]);
    hide Lawful, Recent, Justified, Encode, Continues;
    assert before[i] == log[i];
    SameGenerationWithout(log, i, j);
    assert MeasurementRule(s, before, log[j]) && MeasurementRule(s, log[..i], log[i]);
  }

  lemma SameGenerationWithout(log: seq<Event>, i: nat, j: nat)
    requires i < j <= |log| && !log[i].Began? && forall k :: i < k < j ==> !log[k].Began?
    ensures SameGeneration(log[..j], i)
  {
  }

  /** Between writes of one measurement nothing else is written, so they share the buffer. */
  lemma {:induction false} SameBufferGrows(s: Settings, log: seq<Event>, i: nat, j: nat)
    requires Lawful(s, log) && i < j < |log|
    requires log[i].Wrote? && log[i].kind.MeasurementPending? && log[i].Completes()
    requires log[j].Wrote? && log[j].kind.MeasurementPending? && log[i].timestamp == log[j].timestamp
    requires forall k :: i < k < j ==> !log[k].Began?
    ensures false
    decreases j
  {
    var before := log[..j];
    assert EventRule(s, before, log[j]) && EventRule(s, log[..i], log[i]);
    assert before[i] == log[i];
    assert forall k :: i <= k < |before| ==> before[k] == log[k];
    assert SameGeneration(before, i);
    assert log[j].offset > 0;
    var w := WritePosition(log, i, j);
    if w == i {
      LastWriteIs(log, i, j);
    } else {
      LastWriteIs(log, w, j);
      SameBufferGrows(s, log, i, w);
    }
  }

  /** The index of the last write in `log[i..j]`. */
  ghost function WritePosition(log: seq<Event>, i: nat, j: nat): (w: nat)
    requires i < j <= |log| && log[i].Wrote?
    ensures i <= w < j && log[w].Wrote? && forall k :: w < k < j ==> !log[k].Wrote?
  {
    if log[j - 1].Wrote? then j - 1 else WritePosition(log, i, j - 1)
  }

  // ---- alignment commands

  /**
   * Alignment commands: one is written only to a disarmed controller heard recently, after a whole
   * measurement of this generation that is still fresh, and it carries the number of unanswered
   * commands before it, which the confirmation byte holds without loss.
   */
  lemma AlignmentFollowsAMeasurement(settings: Settings, actions: seq<Action>, j: nat)
    requires settings.Valid()
    requires var log := Run(settings, actions).log;
             j < |log| && log[j].Wrote? && log[j].kind.AlignmentPending?
    ensures var log, timeout := Run(settings, actions).log, settings.session.heartbeatTimeout;
            && Recent(log[..j], timeout, log[j].now) && Disarmed(log[..j])
            && (exists m: nat :: m < j && log[m].CompletesMeasurement() && SameGeneration(log[..j], m)
                  && 0 <= log[j].now - log[m].timestamp <= settings.session.maxEstimateAge)
            && |log[j].cargo| == 1 && log[j].cargo[0].packet.Align?
            && log[j].cargo[0].packet.confirmation == Unresolved(log[..j]) < settings.session.alignmentAttempts
  {
    var log, timeout := Run(settings, actions).log, settings.session.heartbeatTimeout;
    var before := log[..j];
    assert EventRule(settings, before, log[j]);
    var m: nat :| Primed(before, timeout, m) && 0 <= log[j].now - before[m].timestamp <= settings.session.maxEstimateAge;
    assert before[m] == log[m];
  }

  lemma {:induction false} UnresolvedIsBounded(s: Settings, log: seq<Event>)
    requires Lawful(s, log) && s.Valid()
    ensures Unresolved(log) <= s.session.alignmentAttempts
  {
    if log == [] {
    } else {
      LawfulPrefix(s, log, |log| - 1);
      UnresolvedIsBounded(s, log[..|log| - 1]);
      assert EventRule(s, log[..|log| - 1], log[|log| - 1]);
    }
  }

  /** At most the configured number of alignment commands is ever sent between starts and acceptances. */
  lemma AlignmentIsBounded(settings: Settings, actions: seq<Action>)
    requires settings.Valid()
    ensures Unresolved(Run(settings, actions).log) <= settings.session.alignmentAttempts
    ensures var l := Run(settings, actions);
            match l.session.state
            case Aligned => Unresolved(l.log) == 0
            case Failed => Unresolved(l.log) == l.session.attempts || Unresolved(l.log) == 0
            case _ => Unresolved(l.log) == l.session.attempts
  {
    UnresolvedIsBounded(settings, Run(settings, actions).log);
  }

  lemma StartsExactly(l: Link, generation: nat)
    requires Inv(l)
    ensures var (r, result) := StartSession(l, generation);
            && (result.Started? <==>
                  && l.offset == 0 && !l.session.state.Failed? && Unresolved(l.log) == 0
                  && (LastGeneration(l.log).Some? ==> LastGeneration(l.log).value < generation))
            && (result.Refused? ==> r == l)
            && (result.PartialTransmission? <==> l.offset != 0)
            && (result.PartialTransmission? ==> !r.open && r.session.state.Failed?)
            && (result.Started? ==> && r.kind.NoPending? && r.bytes == [] && r.started && r.open
                                    && r.session.generation == Some(generation))
            && r.wire == l.wire
  {
    assert Agrees(l.settings, l.session, l.log);
    assert l.session.state.Aligned? ==> l.session.attempts != 0;
    assert !l.session.state.Failed? ==> l.open;
    hide Inv;
  }

  /**
   * No command leaks into a new generation: a session starts exactly when no packet is half sent, the
   * session has not failed, every command sent so far was accepted, and the generation is new. A
   * refusal changes nothing; a start clears the buffer without touching the wire.
   */
  lemma StartsExactlyWhenResolved(settings: Settings, actions: seq<Action>, generation: nat)
    requires settings.Valid()
    ensures var l := Run(settings, actions);
            var (r, result) := StartSession(l, generation);
            && (result.Started? <==>
                  && l.offset == 0 && !l.session.state.Failed? && Unresolved(l.log) == 0
                  && (LastGeneration(l.log).Some? ==> LastGeneration(l.log).value < generation))
            && (result.Refused? ==> r == l)
            && (result.PartialTransmission? <==> l.offset != 0)
            && (result.PartialTransmission? ==> !r.open && r.session.state.Failed?)
            && (result.Started? ==> && r.kind.NoPending? && r.bytes == [] && r.started && r.open
                                    && r.session.generation == Some(generation))
            && r.wire == l.wire
  {
    hide Inv, Run, StartSession;
    StartsExactly(Run(settings, actions), generation);
  }

  // ---- the link keeps its own contract

  /** Neither `poll` nor `publish` ever trips its own internal checks while the clock is not negative. */
  lemma NeverBreaksItsContract(settings: Settings, actions: seq<Action>, a: Action)
    requires settings.Valid() && (a.Offering? ==> 0 <= a.now)
    ensures !Do(Run(settings, actions), a).1
    ensures var l := Run(settings, actions);
            && (l.kind.NoPending? ==> l.bytes == [] && l.offset == 0)
            && (!l.kind.NoPending? ==> l.offset < |l.bytes| <= BUFFER_SIZE)
  {
    var l := Run(settings, actions);
    if a.Offering? {
      PublishHolds(l, a.estimate, a.now);
    }
    if a.Service? {
      PollHolds(l, a.now, a.read, a.write);
    }
  }

  // ---- control traffic comes first

  predicate ControlDue(l: Link, now: Time) {
    (l.started && l.session.AlignmentDue(now)) || now >= l.nextHeartbeat
  }

  /** A publication leaves a free buffer free while control traffic is due. */
  lemma PublishLeavesRoom(l: Link, e: Estimate, now: Time)
    requires l.kind.NoPending? && ControlDue(l.(session := l.session.Tick(now)), now)
    ensures Publish(l, e, now).0 == l.(session := l.session.Tick(now), log := l.log + [Offered(e, now, false)])
  {
  }

  // ---- after the capture

  /** Withdrawn: nothing but our own heartbeat is buffered, and no capture feeds the buffer. */
  predicate Withdrawn(l: Link) {
    !l.started && (l.kind.NoPending? || l.kind.HeartbeatPending?)
  }

  /** The log grew, and only our own heartbeats were written meanwhile. */
  ghost predicate OnlyHeartbeats(before: seq<Event>, after: seq<Event>) {
    && |before| <= |after| && after[..|before|] == before
    && forall i :: |before| <= i < |after| && after[i].Wrote? ==> after[i].kind.HeartbeatPending?
  }

  lemma OnlyHeartbeatsChain(a: seq<Event>, b: seq<Event>, c: seq<Event>)
    requires OnlyHeartbeats(a, b) && OnlyHeartbeats(b, c)
    ensures OnlyHeartbeats(a, c)
  {
    assert c[..|a|] == c[..|b|][..|a|];
    forall i | |a| <= i < |c| && c[i].Wrote?
      ensures c[i].kind.HeartbeatPending?
    {
      if i < |b| {
        assert c[i] == c[..|b|][i];
      }
    }
  }

  lemma OnlyHeartbeatsSnoc(log: seq<Event>, e: Event)
    requires !e.Wrote?
    ensures OnlyHeartbeats(log, log) && OnlyHeartbeats(log, log + [e])
  {
  }

  lemma {:induction false} ReceivingOnly(l: Link, parsed: seq<Parsed>, now: Time)
    ensures OnlyHeartbeats(l.log, ReceiveAll(l, parsed, now).log)
  {
    if parsed == [] {
    } else {
      var rest := parsed[..|parsed| - 1];
      ReceivingOnly(l, rest, now);
      OnlyHeartbeatsChain(l.log, ReceiveAll(l, rest, now).log, ReceiveAll(l, parsed, now).log);
    }
  }

  lemma WithdrawnSend(l: Link, now: Time, write: WriteOutcome)
    requires Withdrawn(l) && l.offset <= |l.bytes|
    ensures Withdrawn(Send(l, now, write).0) && OnlyHeartbeats(l.log, Send(l, now, write).0.log)
  {
    hide OnlyHeartbeats, Offer;
    WithdrawnFill(l, now);
    OnlyHeartbeatsSnoc(l.log, Closed);
    if !Fill(l, now).0.kind.NoPending? {
      WithdrawnOffer(Fill(l, now).0, now, write);
    }
  }

  lemma WithdrawnFill(l: Link, now: Time)
    requires Withdrawn(l)
    ensures Withdrawn(Fill(l, now).0) && Fill(l, now).0.log == l.log
  {
  }

  lemma WithdrawnOffer(l: Link, now: Time, write: WriteOutcome)
    requires Withdrawn(l) && l.offset <= |l.bytes| && !l.kind.NoPending?
    ensures Withdrawn(Offer(l, now, write).0) && OnlyHeartbeats(l.log, Offer(l, now, write).0.log)
  {
    OnlyHeartbeatsSnoc(l.log, Closed);
    if write.Willing? {
      var count := Accepts(l, write.willing);
      OneHeartbeat(l.log, WriteEvent(l, count, now));
      hide OnlyHeartbeats;
      WithdrawnTransmit(l, count, now);
      hide Transmit;
    }
  }

  lemma WithdrawnTransmit(l: Link, count: nat, now: Time)
    requires l.offset + count <= |l.bytes|
    ensures var moved := Transmit(l, count, now);
            && moved.started == l.started && moved.kind == l.kind
            && (moved.log == l.log || moved.log == l.log + [WriteEvent(l, count, now)])
  {
  }

  lemma OneHeartbeat(log: seq<Event>, e: Event)
    requires e.Wrote? && e.kind.HeartbeatPending?
    ensures OnlyHeartbeats(log, log + [e])
  {
  }

  lemma WithdrawnService(l: Link, now: Time, read: ReadOutcome, write: WriteOutcome)
    requires Withdrawn(l) && l.open && l.offset <= |l.bytes|
    ensures Withdrawn(Poll(l, now, read, write).0) && OnlyHeartbeats(l.log, Poll(l, now, read, write).0.log)
  {
    hide ReceiveAll, Send, OnlyHeartbeats, Session.Tick;
    OnlyHeartbeatsSnoc(l.log, Closed);
    if read.Read? {
      var ticked := l.(session := l.session.Tick(now));
      var heard := ReceiveAll(ticked, read.parsed, now);
      OnlyHeartbeatsSnoc(heard.log, Closed);
      ReceivingOnly(ticked, read.parsed, now);
      if heard.session.state.Failed? {
        OnlyHeartbeatsChain(l.log, heard.log, Close(heard).log);
      } else {
        var kept := Expire(heard, now);
        OnlyHeartbeatsChain(l.log, heard.log, kept.log);
        if kept.open && read.count != READ_BUDGET {
          WithdrawnSend(kept, now, write);
          OnlyHeartbeatsChain(l.log, kept.log, Send(kept, now, write).0.log);
        }
      }
    }
  }

  lemma WithdrawnStep(l: Link, a: Action)
    requires Inv(l) && Withdrawn(l) && !a.Start?
    ensures Withdrawn(Do(l, a).0) && OnlyHeartbeats(l.log, Do(l, a).0.log)
  {
    match a {
      case Service(now, read, write) =>
        if l.open {
          WithdrawnService(l, now, read, write);
        }
      case _ =>
    }
  }

  /** After `end_session` no measurement and no alignment command is written until a session starts again. */
  lemma {:induction false} EndedCaptureIsSilent(settings: Settings, actions: seq<Action>, n: nat)
    requires settings.Valid() && n < |actions| && actions[n].End?
    requires forall i :: n < i < |actions| ==> !actions[i].Start?
    ensures Withdrawn(Run(settings, actions))
    ensures OnlyHeartbeats(Run(settings, actions[..n + 1]).log, Run(settings, actions).log)
  {
    if n + 1 == |actions| {
      assert actions[..n + 1] == actions;
    } else {
      var rest := actions[..|actions| - 1];
      assert rest[..n + 1] == actions[..n + 1];
      EndedCaptureIsSilent(settings, rest, n);
      WithdrawnStep(Run(settings, rest), actions[|actions| - 1]);
      OnlyHeartbeatsChain(Run(settings, actions[..n + 1]).log, Run(settings, rest).log, Run(settings, actions).log);
    }
  }
}
