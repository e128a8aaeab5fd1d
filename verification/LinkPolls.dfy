/** What a poll puts on the wire: pending data while it may go on, control traffic when it is due, and nothing else. */
module LinkPolls {
  import opened Basics
  import opened Estimates
  import opened Sessions
  import opened LinkModel
  import opened LinkHistory
  import opened SessionProofs
  import opened LinkProofs
  import opened LinkTheorems

  // ---- pending data

  /** The pending packets may go on to the stream at `now`. */
  predicate MayGoOn(l: Link, now: Time) {
    && now <= l.deadline
    && match l.kind
       case MeasurementPending => l.session.CanPublish(now)
       case AlignmentPending => l.session.AlignmentDue(now)
       case HeartbeatPending => true
       case NoPending => false
  }

  function DamagedIn(parsed: seq<Parsed>): nat {
    if parsed == [] then 0
    else DamagedIn(parsed[..|parsed| - 1]) + if parsed[|parsed| - 1].Damaged? then 1 else 0
  }

  /** Reception touches the session and the log, counts the damaged messages, and nothing else. */
  lemma {:induction false} ReceivingLeavesTheRest(l: Link, parsed: seq<Parsed>, now: Time)
    ensures var r := ReceiveAll(l, parsed, now);
            r == l.(session := r.session, log := r.log, invalid := l.invalid + DamagedIn(parsed))
  {
    if parsed == [] {
    } else {
      ReceivingLeavesTheRest(l, parsed[..|parsed| - 1], now);
    }
  }

  /** Messages are taken in the order they arrived. */
  lemma {:induction false} ReceivingIsInOrder(l: Link, first: seq<Parsed>, second: seq<Parsed>, now: Time)
    ensures ReceiveAll(l, first + second, now) == ReceiveAll(ReceiveAll(l, first, now), second, now)
  {
    if second == [] {
      assert first + second == first;
    } else {
      assert (first + second)[..|first + second| - 1] == first + second[..|second| - 1];
      ReceivingIsInOrder(l, first, second[..|second| - 1], now);
    }
  }

  function Fewer(a: nat, b: nat): nat {
    if a <= b then a else b
  }

  /** The link after `count` more bytes of its buffer have gone to the stream. */
  ghost predicate WroteOn(l: Link, r: Link, count: nat, now: Time)
    requires l.offset + count <= |l.bytes|
  {
    && r.open && r.wire == l.wire + l.bytes[l.offset..l.offset + count]
    && r.log == l.log + (if count == 0 then [] else [Wrote(l.kind, l.timestamp, l.cargo, l.bytes, now, l.offset, count)])
    && if l.offset + count < |l.bytes| then
         r == l.(offset := l.offset + count, wire := r.wire, log := r.log)
       else
         && r.kind.NoPending? && r.bytes == [] && r.offset == 0
         && match l.kind
            case MeasurementPending =>
              r.session == l.session.(measurementTime := Some(l.timestamp)) && r.sent == l.sent + 1
            case AlignmentPending =>
              r.session == l.session.(state := AwaitingAlignment, attempts := l.session.attempts + 1,
                                      requestTime := now, inProgress := false)
            case _ => r.session == l.session
  }

  lemma OfferWritesOn(l: Link, now: Time, willing: nat)
    requires l.open && l.offset < |l.bytes| && !l.kind.NoPending?
    requires l.kind.AlignmentPending? ==> l.session.AlignmentDue(now)
    ensures WroteOn(l, Offer(l, now, Willing(willing)).0, Fewer(willing, |l.bytes| - l.offset), now)
  {
    var count := Fewer(willing, |l.bytes| - l.offset);
    assert l.log + [] == l.log;
  }

  lemma HeardHolds(l: Link, now: Time, read: ReadOutcome)
    requires Inv(l) && l.open
    ensures Inv(AfterReading(l, now, read))
    ensures var h := AfterReading(l, now, read); h == l.(session := h.session, log := h.log, invalid := h.invalid)
  {
    TickHolds(l, now);
    var ticked := l.(session := l.session.Tick(now));
    if read.Read? {
      ReceiveAllHolds(ticked, read.parsed, now);
      ReceivingLeavesTheRest(ticked, read.parsed, now);
    }
  }

  /** A poll that may write: some was read, less than its budget, and nothing failed. */
  predicate Writes(l: Link, now: Time, read: ReadOutcome) {
    l.open && read.Read? && read.count != READ_BUDGET && !AfterReading(l, now, read).session.state.Failed?
  }

  lemma PollWritesOn(l: Link, now: Time, read: ReadOutcome, willing: nat)
    requires Inv(l) && Writes(l, now, read) && MayGoOn(AfterReading(l, now, read), now)
    ensures var heard := AfterReading(l, now, read);
            && heard.bytes == l.bytes && heard.offset == l.offset < |l.bytes|
            && WroteOn(heard, Poll(l, now, read, Willing(willing)).0, Fewer(willing, |l.bytes| - l.offset), now)
  {
    HeardHolds(l, now, read);
    var heard := AfterReading(l, now, read);
    BufferFits(l);
    NothingExpires(heard, now);
    hide Inv, ReceiveAll, MayGoOn, Offer, WroteOn;
    OfferWritesOn(heard, now, willing);
  }

  lemma NothingExpires(l: Link, now: Time)
    requires Inv(l) && MayGoOn(l, now)
    ensures Expire(l, now) == l && Fill(l, now) == (l, true) && !l.kind.NoPending? && l.offset < |l.bytes|
    ensures l.kind.AlignmentPending? ==> l.session.AlignmentDue(now)
  {
    hide Lawful, Agrees, WireBytes, OrderAgrees;
  }

  /**
   * Pending data is sent: on every reachable open link, a poll that reads less than its budget and fails
   * nothing offers the stream the rest of a pending buffer that is still permitted and in time. The wire grows
   * by exactly the bytes the stream takes, the next ones of that buffer; the buffer is concluded exactly when
   * its last byte is out.
   */
  lemma PendingDataIsSent(settings: Settings, actions: seq<Action>, now: Time, read: ReadOutcome, willing: nat)
    requires settings.Valid() && Writes(Run(settings, actions), now, read)
    requires MayGoOn(AfterReading(Run(settings, actions), now, read), now)
    ensures var l, heard := Run(settings, actions), AfterReading(Run(settings, actions), now, read);
            heard.bytes == l.bytes && heard.offset == l.offset < |l.bytes|
    ensures var l := Run(settings, actions); var count := Fewer(willing, |l.bytes| - l.offset);
            var heard, r := AfterReading(l, now, read), Poll(l, now, read, Willing(willing)).0;
            && r.wire == l.wire + l.bytes[l.offset..l.offset + count] && r.open
            && (if l.offset + count == |l.bytes| then r.kind.NoPending?
                else r.kind == l.kind && r.bytes == l.bytes && r.offset == l.offset + count)
            && WroteOn(heard, r, count, now)
  {
    hide Run, Inv, Poll, AfterReading, MayGoOn, WroteOn, Writes;
    var l := Run(settings, actions);
    WritingNeedsAnOpenLink(l, now, read);
    HeardHolds(l, now, read);
    PollWritesOn(l, now, read, willing);
    WhatWroteOn(AfterReading(l, now, read), Poll(l, now, read, Willing(willing)).0,
                Fewer(willing, |l.bytes| - l.offset), now);
  }

  lemma WritingNeedsAnOpenLink(l: Link, now: Time, read: ReadOutcome)
    requires Writes(l, now, read)
    ensures l.open
  {
  }

  lemma WhatWroteOn(l: Link, r: Link, count: nat, now: Time)
    requires l.offset + count <= |l.bytes| && WroteOn(l, r, count, now) && l.offset < |l.bytes|
    ensures r.wire == l.wire + l.bytes[l.offset..l.offset + count] && r.open
    ensures if l.offset + count == |l.bytes| then r.kind.NoPending? else r.kind == l.kind && r.bytes == l.bytes
    ensures l.offset + count < |l.bytes| ==> r.offset == l.offset + count
  {
  }

  // ---- slow streams

  /** Some of the buffer of `l` is out, and the rest is still pending. */
  ghost predicate OnTheWay(l: Link, r: Link) {
    && r.kind == l.kind && r.bytes == l.bytes && l.offset <= r.offset < |l.bytes|
    && r.wire == l.wire + l.bytes[l.offset..r.offset]
  }

  /** A poll in time, of a stream that takes at least one byte. */
  predicate Serves(l: Link, a: Action) {
    && a.Service? && a.write.Willing? && a.write.willing > 0
    && Writes(l, a.now, a.read) && MayGoOn(AfterReading(l, a.now, a.read), a.now)
  }

  lemma ServedPoll(l: Link, r: Link, a: Action)
    requires Inv(r) && OnTheWay(l, r) && Serves(r, a)
    ensures var t := Do(r, a).0;
            (OnTheWay(l, t) && t.offset > r.offset) || (t.kind.NoPending? && t.wire == l.wire + l.bytes[l.offset..])
  {
    hide Inv, Poll, AfterReading, MayGoOn, WroteOn, Writes;
    WritingNeedsAnOpenLink(r, a.now, a.read);
    HeardHolds(r, a.now, a.read);
    PollWritesOn(r, a.now, a.read, a.write.willing);
    var count := Fewer(a.write.willing, |r.bytes| - r.offset);
    WhatWroteOn(AfterReading(r, a.now, a.read), Do(r, a).0, count, a.now);
    NextBytes(l.wire, l.bytes, l.offset, r.offset, r.offset + count);
  }

  lemma NextBytes(wire: seq<Byte>, bytes: seq<Byte>, a: nat, b: nat, c: nat)
    requires a <= b <= c <= |bytes|
    ensures wire + bytes[a..b] + bytes[b..c] == wire + bytes[a..c] && bytes[a..|bytes|] == bytes[a..]
  {
    assert bytes[a..b] + bytes[b..c] == bytes[a..c];
  }

  /** The polls from the `i`-th on, of which each serves the buffer while it is on its way. */
  lemma {:induction false} GoesOn(settings: Settings, actions: seq<Action>, polls: seq<Action>, i: nat) returns (n: nat)
    requires settings.Valid() && i <= |polls|
    requires var l, r := Run(settings, actions), Run(settings, actions + polls[..i]);
             OnTheWay(l, r) && i <= r.offset - l.offset && |l.bytes| - l.offset <= |polls|
    requires forall k :: 0 <= k < |polls| && OnTheWay(Run(settings, actions), Run(settings, actions + polls[..k])) ==>
               Serves(Run(settings, actions + polls[..k]), polls[k])
    ensures var l := Run(settings, actions);
            && n <= |l.bytes| - l.offset && n <= |polls|
            && var t := Run(settings, actions + polls[..n]);
               t.kind.NoPending? && t.wire == l.wire + l.bytes[l.offset..]
    decreases |polls| - i
  {
    hide Run, Serves, Do, Inv;
    var l, r := Run(settings, actions), Run(settings, actions + polls[..i]);
    assert actions + polls[..i + 1] == actions + polls[..i] + [polls[i]];
    RunSnoc(settings, actions + polls[..i], polls[i]);
    ServedPoll(l, r, polls[i]);
    if OnTheWay(l, Run(settings, actions + polls[..i + 1])) {
      n := GoesOn(settings, actions, polls, i + 1);
    } else {
      n := i + 1;
    }
  }

  /**
   * A slow stream gets it all: if every poll that finds the buffer on its way may still send it, and the stream
   * takes at least one byte each time, then after no more polls than bytes were left the whole rest of the
   * buffer is on the wire, and nothing else.
   */
  lemma SlowStreamGetsItAll(settings: Settings, actions: seq<Action>, polls: seq<Action>) returns (n: nat)
    requires settings.Valid() && !Run(settings, actions).kind.NoPending?
    requires |polls| >= |Run(settings, actions).bytes| - Run(settings, actions).offset
    requires forall k :: 0 <= k < |polls| && OnTheWay(Run(settings, actions), Run(settings, actions + polls[..k])) ==>
               Serves(Run(settings, actions + polls[..k]), polls[k])
    ensures var l := Run(settings, actions);
            && n <= |polls| && n <= |l.bytes| - l.offset
            && var t := Run(settings, actions + polls[..n]);
               t.kind.NoPending? && t.wire == l.wire + l.bytes[l.offset..]
  {
    var l := Run(settings, actions);
    assert actions + polls[..0] == actions;
    assert l.offset < |l.bytes|;
    hide Run;
    n := GoesOn(settings, actions, polls, 0);
  }

  // ---- a free buffer

  /** The buffer is free, or was until it expired before any of it was written. */
  ghost predicate Freed(l: Link, f: Link) {
    f == l.(kind := NoPending, bytes := [], cargo := [],
            dropped := l.dropped + if l.kind.MeasurementPending? then 1 else 0)
  }

  lemma ExpiryFrees(l: Link, now: Time)
    requires Inv(l) && l.open && !MayGoOn(l, now)
    ensures if l.offset == 0 then Freed(l, Expire(l, now)) && Inv(Expire(l, now)) && Expire(l, now).open
            else Expire(l, now).wire == l.wire && !Expire(l, now).open && Expire(l, now).session.state.Failed?
  {
    ExpireHolds(l, now);
    hide Lawful, Agrees, WireBytes, OrderAgrees;
  }

  /** A due control packet is alone in the buffer: an alignment command first, or else our heartbeat. */
  ghost predicate ControlQueued(l: Link, q: Link, now: Time) {
    && q == l.(kind := q.kind, bytes := q.bytes, cargo := q.cargo, deadline := q.deadline,
               nextHeartbeat := q.nextHeartbeat, sequence := Increment(l.sequence))
    && |q.cargo| == 1 && q.cargo[0].sequence == l.sequence && q.bytes == l.settings.codec(q.cargo[0])
    && if l.started && l.session.AlignmentDue(now) then
         && q.kind.AlignmentPending? && q.cargo[0].packet.Align?
         && q.cargo[0].packet.confirmation == l.session.attempts
         && q.deadline == now + l.settings.session.alignmentTimeout && q.nextHeartbeat == l.nextHeartbeat
       else
         && q.kind.HeartbeatPending? && q.cargo[0].packet == Presence
         && q.deadline == q.nextHeartbeat == now + HEARTBEAT_PERIOD
  }

  lemma FillQueuesControl(l: Link, now: Time)
    requires Inv(l) && l.open && l.kind.NoPending? && ControlDue(l, now)
    ensures var (q, ok) := Fill(l, now); ok && ControlQueued(l, q, now) && q.offset == 0 < |q.bytes|
  {
    hide Lawful, WireBytes, OrderAgrees, Evidenced;
    assert l.session.Bounded() && l.session.config == l.settings.session;
    hide Agrees;
    assert [] + l.settings.codec(Stamped(Presence, l.sequence)) == l.settings.codec(Stamped(Presence, l.sequence));
    var command := Stamped(Align(l.session.attempts % 256), l.sequence);
    assert [] + l.settings.codec(command) == l.settings.codec(command);
  }

  /** What follows once the buffer is free. */
  ghost predicate ServesControl(f: Link, r: Link, now: Time, write: WriteOutcome) {
    if !ControlDue(f, now) then r == f
    else exists q: Link ::
        && ControlQueued(f, q, now) && q.offset == 0
        && match write
           case WriteThrew => r == Close(q)
           case Willing(willing) => WroteOn(q, r, Fewer(willing, |q.bytes|), now)
  }

  lemma SendServesControl(f: Link, now: Time, write: WriteOutcome)
    requires Inv(f) && f.open && f.kind.NoPending?
    ensures f.offset <= |f.bytes| && ServesControl(f, Send(f, now, write).0, now, write)
  {
    BufferFits(f);
    if ControlDue(f, now) {
      FillQueuesControl(f, now);
      var q := Fill(f, now).0;
      if write.Willing? {
        hide Offer, WroteOn;
        QueuedIsDue(f, q, now);
        OfferWritesOn(q, now, write.willing);
      }
      assert ControlQueued(f, q, now);
    }
  }

  lemma QueuedIsDue(f: Link, q: Link, now: Time)
    requires f.open && ControlQueued(f, q, now)
    ensures q.open && !q.kind.NoPending? && (q.kind.AlignmentPending? ==> q.session.AlignmentDue(now))
  {
  }

  /**
   * A free buffer goes to control traffic: on every reachable open link, a poll that reads less than its
   * budget and fails nothing finds the buffer free, or drops what may no longer be sent before any of it was
   * written. If an alignment command or else our heartbeat is due, the stream is offered that packet, and the
   * wire grows by the bytes it takes; if neither is, nothing else happens.
   */
  lemma FreeBufferServesControl(settings: Settings, actions: seq<Action>, now: Time, read: ReadOutcome,
                                write: WriteOutcome)
    requires settings.Valid() && Writes(Run(settings, actions), now, read)
    requires Run(settings, actions).offset == 0 && !MayGoOn(AfterReading(Run(settings, actions), now, read), now)
    ensures exists f :: Freed(AfterReading(Run(settings, actions), now, read), f)
                     && ServesControl(f, Poll(Run(settings, actions), now, read, write).0, now, write)
  {
    hide Run;
    FreePollServesControl(Run(settings, actions), now, read, write);
  }

  lemma FreePollServesControl(l: Link, now: Time, read: ReadOutcome, write: WriteOutcome)
    requires Inv(l) && Writes(l, now, read) && l.offset == 0 && !MayGoOn(AfterReading(l, now, read), now)
    ensures exists f :: Freed(AfterReading(l, now, read), f) && ServesControl(f, Poll(l, now, read, write).0, now, write)
  {
    HeardHolds(l, now, read);
    var heard := AfterReading(l, now, read);
    hide Inv, ReceiveAll, MayGoOn, Send, ServesControl, Expire;
    ExpiryFrees(heard, now);
    SendServesControl(Expire(heard, now), now, write);
  }

  // ---- closing

  /** There is something to offer the stream. */
  predicate Offers(l: Link, now: Time) {
    MayGoOn(l, now) || ControlDue(l, now)
  }

  lemma ClosingOffer(l: Link, now: Time, write: WriteOutcome)
    requires l.open && l.offset <= |l.bytes| && !l.session.state.Failed?
    requires l.kind.AlignmentPending? ==> l.session.AlignmentDue(now)
    ensures var r := Offer(l, now, write).0;
            (r.open <==> !write.WriteThrew?) && (!r.open ==> r.wire == l.wire && r.session.state.Failed?)
  {
  }

  lemma ClosingSend(l: Link, now: Time, write: WriteOutcome)
    requires Inv(l) && l.open && !l.session.state.Failed? && (l.kind.NoPending? || MayGoOn(l, now))
    ensures l.offset <= |l.bytes|
    ensures var r := Send(l, now, write).0;
            && (r.open <==> !(write.WriteThrew? && Offers(l, now)))
            && (!r.open ==> r.wire == l.wire && r.session.state.Failed?)
  {
    BufferFits(l);
    if l.kind.NoPending? {
      if ControlDue(l, now) {
        FillQueuesControl(l, now);
        hide Inv;
        QueuedIsDue(l, Fill(l, now).0, now);
        ClosingOffer(Fill(l, now).0, now, write);
      }
    } else {
      NothingExpires(l, now);
      hide Inv;
      ClosingOffer(l, now, write);
    }
  }

  /**
   * A poll closes an open link for five reasons only: the read threw, the session failed, a half-sent packet
   * may not go on, or the stream threw on the bytes it was offered, be they pending data or control traffic.
   * A poll that closes the link has failed the session and written nothing.
   */
  lemma PollClosesExactly(settings: Settings, actions: seq<Action>, now: Time, read: ReadOutcome, write: WriteOutcome)
    requires settings.Valid() && Run(settings, actions).open
    ensures var l := Run(settings, actions); l.offset <= |l.bytes|
    ensures var l, heard := Run(settings, actions), AfterReading(Run(settings, actions), now, read);
            var r := Poll(l, now, read, write).0;
            && (r.open <==> && read.Read? && !heard.session.state.Failed? && (l.offset == 0 || MayGoOn(heard, now))
                            && !(write.WriteThrew? && read.count != READ_BUDGET && Offers(heard, now)))
            && (!r.open ==> r.wire == l.wire && r.session.state.Failed?)
  {
    hide Run;
    ClosesExactly(Run(settings, actions), now, read, write);
  }

  lemma ClosesExactly(l: Link, now: Time, read: ReadOutcome, write: WriteOutcome)
    requires Inv(l) && l.open
    ensures l.offset <= |l.bytes|
    ensures var heard, r := AfterReading(l, now, read), Poll(l, now, read, write).0;
            && (r.open <==> && read.Read? && !heard.session.state.Failed? && (l.offset == 0 || MayGoOn(heard, now))
                            && !(write.WriteThrew? && read.count != READ_BUDGET && Offers(heard, now)))
            && (!r.open ==> r.wire == l.wire && r.session.state.Failed?)
  {
    BufferFits(l);
    HeardHolds(l, now, read);
    var heard := AfterReading(l, now, read);
    hide Inv, ReceiveAll, Send, Expire, MayGoOn, ControlDue, Session.Tick;
    if read.Read? && !heard.session.state.Failed? {
      if MayGoOn(heard, now) {
        NothingExpires(heard, now);
        ClosingSend(heard, now, write);
      } else {
        ExpiryFrees(heard, now);
        if heard.offset == 0 {
          var kept := Expire(heard, now);
          StillDue(heard, kept, now);
          ClosingSend(kept, now, write);
        }
      }
    }
  }

  lemma StillDue(l: Link, f: Link, now: Time)
    requires Freed(l, f)
    ensures ControlDue(f, now) == ControlDue(l, now) && f.kind.NoPending? && !MayGoOn(f, now)
    ensures f.session == l.session
  {
  }

  // ---- control traffic comes first

  lemma AlreadyFree(l: Link, f: Link)
    requires Inv(l) && l.kind.NoPending? && Freed(l, f)
    ensures f == l
  {
    hide Lawful, Agrees, WireBytes, OrderAgrees;
  }

  /**
   * Control traffic is not starved: while our heartbeat or an alignment command is due, a publication leaves
   * the free buffer of any reachable link free, and the next poll that reads less than its budget and fails
   * nothing serves the control traffic that is due by then. Our heartbeat stays due.
   */
  lemma ControlIsNotStarved(settings: Settings, actions: seq<Action>, e: Estimate, now: Time, later: Time,
                            read: ReadOutcome, write: WriteOutcome)
    requires settings.Valid()
    requires var l := Run(settings, actions);
             l.open && l.kind.NoPending? && ControlDue(l.(session := l.session.Tick(now)), now)
    ensures var l := Run(settings, actions);
            Publish(l, e, now).0 == l.(session := l.session.Tick(now), log := l.log + [Offered(e, now, false)])
    ensures var p := Publish(Run(settings, actions), e, now).0; p.offset <= |p.bytes|
    ensures var l, p := Run(settings, actions), Publish(Run(settings, actions), e, now).0;
            Writes(p, later, read) ==>
              && (now >= l.nextHeartbeat && later >= now ==> ControlDue(AfterReading(p, later, read), later))
              && ServesControl(AfterReading(p, later, read), Poll(p, later, read, write).0, later, write)
  {
    hide Inv, Poll, Publish, Run, AfterReading, Writes, ServesControl;
    var l := Run(settings, actions);
    PublishLeavesRoom(l, e, now);
    PublishHolds(l, e, now);
    var p := Publish(l, e, now).0;
    BufferFits(p);
    NothingPending(p);
    HeardHolds(p, later, read);
    if Writes(p, later, read) {
      FreePollServesControl(p, later, read, write);
      var f :| Freed(AfterReading(p, later, read), f)
               && ServesControl(f, Poll(p, later, read, write).0, later, write);
      AlreadyFree(AfterReading(p, later, read), f);
    }
  }

  lemma NothingPending(l: Link)
    requires Inv(l) && l.kind.NoPending?
    ensures l.offset == 0
  {
  }

  // ---- counting

  /** Measurements the stream accepted in full. */
  function CompleteMeasurements(log: seq<Event>): nat {
    if log == [] then 0
    else CompleteMeasurements(log[..|log| - 1]) + if log[|log| - 1].CompletesMeasurement() then 1 else 0
  }

  function QueuedOffers(log: seq<Event>): nat {
    if log == [] then 0
    else QueuedOffers(log[..|log| - 1]) + if log[|log| - 1].Offered? && log[|log| - 1].queued then 1 else 0
  }

  /** Each queued measurement is pending, or counted at most once: as sent exactly when it was, or as dropped. */
  ghost predicate Counted(l: Link) {
    && l.sent == CompleteMeasurements(l.log)
    && l.sent + l.dropped + (if l.kind.MeasurementPending? then 1 else 0) <= QueuedOffers(l.log)
  }

  lemma SnocCounts(log: seq<Event>, e: Event)
    ensures CompleteMeasurements(log + [e]) == CompleteMeasurements(log) + if e.CompletesMeasurement() then 1 else 0
    ensures QueuedOffers(log + [e]) == QueuedOffers(log) + if e.Offered? && e.queued then 1 else 0
  {
    assert (log + [e])[..|log|] == log;
  }

  lemma CloseCounts(l: Link)
    requires Counted(l)
    ensures Counted(Close(l))
  {
    SnocCounts(l.log, Closed);
  }

  lemma {:induction false} ReceivingCounts(l: Link, parsed: seq<Parsed>, now: Time)
    requires Counted(l)
    ensures Counted(ReceiveAll(l, parsed, now))
  {
    if parsed == [] {
    } else {
      var before, p := ReceiveAll(l, parsed[..|parsed| - 1], now), parsed[|parsed| - 1];
      ReceivingCounts(l, parsed[..|parsed| - 1], now);
      ReceivingOneCounts(before, p, now);
    }
  }

  lemma EventCounts(l: Link, r: Link, e: Event)
    requires Counted(l) && !e.Wrote? && !e.Offered? && (r.log == l.log || r.log == l.log + [e])
    requires r.sent == l.sent && r.dropped == l.dropped && r.kind == l.kind
    ensures Counted(r)
  {
    SnocCounts(l.log, e);
  }

  lemma ReceivingOneCounts(l: Link, p: Parsed, now: Time)
    requires Counted(l)
    ensures Counted(ReceiveOne(l, p, now))
  {
    hide Counted, Session.Heartbeat, Session.Acknowledge, Session.Honours;
    var r := ReceiveOne(l, p, now);
    if p.Received? && p.message.sender == l.settings.controller {
      match p.message {
        case HeartbeatMessage(_, _, _, armed) => EventCounts(l, r, Heard(p.message, armed, now));
        case AckMessage(_, _, _, _, _) =>
          var reply := ReplyFor(l.settings, p.message);
          if reply.Some? {
            EventCounts(l, r, Replied(p.message, reply.value, now, l.session.Honours(now)));
          } else {
            EventCounts(l, r, Closed);
          }
        case OtherMessage(_) => EventCounts(l, r, Closed);
      }
    } else {
      EventCounts(l, r, Closed);
    }
  }

  lemma TransmitCounts(l: Link, count: nat, now: Time)
    requires Counted(l) && l.offset + count <= |l.bytes|
    ensures var r := Transmit(l, count, now);
            && r.kind == l.kind && r.session == l.session
            && (if l.kind.MeasurementPending? && 0 < count == |l.bytes| - l.offset then
                  Counted(r.(kind := NoPending, sent := r.sent + 1))
                else Counted(r))
  {
    SnocCounts(l.log, WriteEvent(l, count, now));
  }

  lemma ConcludeCounts(l: Link, now: Time)
    requires if l.kind.MeasurementPending? then Counted(l.(kind := NoPending, sent := l.sent + 1)) else Counted(l)
    requires l.kind.AlignmentPending? ==> l.session.AlignmentDue(now)
    ensures Counted(Conclude(l, now).0)
  {
  }

  lemma OfferTakenCounts(l: Link, now: Time, willing: nat)
    requires Counted(l) && l.offset < |l.bytes| && (l.kind.AlignmentPending? ==> l.session.AlignmentDue(now))
    ensures Counted(Offer(l, now, Willing(willing)).0)
  {
    hide Offer, Counted, Transmit, Conclude, Session.AlignmentDue;
    OfferOutcome(l, now, willing);
    var rest := |l.bytes| - l.offset;
    TransmitCounts(l, Fewer(willing, rest), now);
    if willing >= rest {
      ConcludeCounts(Transmit(l, rest, now), now);
    }
  }

  lemma OfferThrewCounts(l: Link, now: Time)
    requires Counted(l) && l.offset <= |l.bytes|
    ensures Counted(Offer(l, now, WriteThrew).0)
  {
    CloseCounts(l);
    hide Counted, Close;
  }

  lemma OfferCounts(l: Link, now: Time, write: WriteOutcome)
    requires Counted(l) && l.offset < |l.bytes| && (l.kind.AlignmentPending? ==> l.session.AlignmentDue(now))
    ensures Counted(Offer(l, now, write).0)
  {
    hide Counted, Offer, Session.AlignmentDue;
    match write {
      case WriteThrew => OfferThrewCounts(l, now);
      case Willing(willing) => OfferTakenCounts(l, now, willing);
    }
  }

  lemma SendCounts(l: Link, now: Time, write: WriteOutcome)
    requires Inv(l) && l.open && Counted(l) && (l.kind.NoPending? || MayGoOn(l, now))
    ensures l.offset <= |l.bytes| && Counted(Send(l, now, write).0)
  {
    BufferFits(l);
    if l.kind.NoPending? {
      if ControlDue(l, now) {
        FillQueuesControl(l, now);
        hide Inv;
        QueuedIsDue(l, Fill(l, now).0, now);
        OfferCounts(Fill(l, now).0, now, write);
      }
    } else {
      NothingExpires(l, now);
      hide Inv;
      OfferCounts(l, now, write);
    }
  }

  lemma ExpiringCounts(l: Link, now: Time)
    requires Counted(l)
    ensures Counted(Expire(l, now))
  {
    hide Eligible, Session.Fail;
    SnocCounts(l.log, Closed);
    hide CompleteMeasurements, QueuedOffers;
  }

  lemma PollCounts(l: Link, now: Time, read: ReadOutcome, write: WriteOutcome)
    requires Inv(l) && l.open && Counted(l)
    ensures l.offset <= |l.bytes| && Counted(Poll(l, now, read, write).0)
  {
    BufferFits(l);
    HeardHolds(l, now, read);
    var ticked := l.(session := l.session.Tick(now));
    var heard := AfterReading(l, now, read);
    assert Counted(ticked);
    hide Inv, Counted, ReceiveAll, Send, Expire, MayGoOn;
    CloseCounts(ticked);
    if read.Read? {
      ReceivingCounts(ticked, read.parsed, now);
      CloseCounts(heard);
      ExpiringCounts(heard, now);
      if MayGoOn(heard, now) {
        NothingExpires(heard, now);
        SendCounts(heard, now, write);
      } else {
        ExpiryFrees(heard, now);
        if heard.offset == 0 {
          SendCounts(Expire(heard, now), now, write);
        }
      }
    }
  }

  lemma PublishCounts(l: Link, e: Estimate, now: Time)
    requires Inv(l) && Counted(l)
    ensures Counted(Publish(l, e, now).0)
  {
    var (r, result) := Publish(l, e, now);
    TickHolds(l, now);
    var ticked := l.(session := l.session.Tick(now));
    SnocCounts(l.log, Offered(e, now, result.Queued?));
    hide Inv;
    ConsiderCounts(ticked, e, now);
    hide Consider;
  }

  lemma ConsiderCounts(l: Link, e: Estimate, now: Time)
    requires Inv(l)
    ensures var (r, result) := Consider(l, e, now);
            && r.sent == l.sent && r.dropped == l.dropped && r.log == l.log
            && (if result.Queued? then l.kind.NoPending? else r.kind == l.kind)
  {
    ConsiderOutcome(l, e, now);
    hide Inv;
  }

  lemma StartCounts(l: Link, generation: nat)
    requires Counted(l)
    ensures Counted(StartSession(l, generation).0)
  {
    hide Session.Start;
    SnocCounts(l.log, Closed);
    SnocCounts(l.log, Began(generation));
  }

  lemma EndCounts(l: Link)
    requires Counted(l)
    ensures Counted(EndSession(l))
  {
    SnocCounts(l.log, Closed);
  }

  lemma StepCounts(l: Link, a: Action)
    requires Inv(l) && Counted(l)
    ensures Counted(Do(l, a).0)
  {
    hide Inv, Counted, StartSession, EndSession, Publish, Poll;
    match a {
      case Start(generation) => StartCounts(l, generation);
      case End => EndCounts(l);
      case Service(now, read, write) =>
        BufferFits(l);
        if l.open {
          PollCounts(l, now, read, write);
        } else {
          ClosedPoll(l, now, read, write);
        }
      case Offering(e, now) => PublishCounts(l, e, now);
    }
  }

  lemma ClosedPoll(l: Link, now: Time, read: ReadOutcome, write: WriteOutcome)
    requires !l.open && l.offset <= |l.bytes|
    ensures Poll(l, now, read, write) == (l, true)
  {
  }

  /** The statistics are true: over every run the measurements counted as sent are those on the wire in full. */
  lemma {:induction false} StatisticsAreTrue(settings: Settings, actions: seq<Action>)
    requires settings.Valid()
    ensures Counted(Run(settings, actions))
  {
    if actions == [] {
    } else {
      StatisticsAreTrue(settings, actions[..|actions| - 1]);
      StepCounts(Run(settings, actions[..|actions| - 1]), actions[|actions| - 1]);
    }
  }
}
