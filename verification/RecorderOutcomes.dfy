/** How recordings end: which records get in, what names a failure, and what becomes complete and stays so. */
module RecorderOutcomes {
  import opened Recorders
  import opened RecorderModel
  import opened RecorderProofs
  import opened RecorderTheorems

  // ---- admission

  /** There is room for the record behind those already queued. */
  predicate Room(r: Recorder, record: Record) {
    && !r.shelf.closing && |r.shelf.queue| < r.shelf.recordLimit
    && TotalSize(r.shelf.queue) + Size(record.chunks) <= r.shelf.byteLimit
  }

  /** The decision of `submit`: a record is let in exactly if nothing failed or finished and there is room. */
  lemma AdmittedExactlyWithRoom(r: Recorder, p: nat)
    requires Inv(r) && p < |r.producers| && r.producers[p].Deciding?
    ensures var record, t := r.producers[p].record, Advance(r, Decide(p));
            var ok := r.Active() && Room(r, record);
            && t.decisions == r.decisions + [Decision(record, ok)]
            && t.shelf.queue == (if ok then r.shelf.queue + [record] else r.shelf.queue)
            && t.producers == r.producers[p := if ok then Idle else Rejecting(record)]
            && t.failure == (if ok || !r.Active() then r.failure else Backlog)
  {
    hide Size, TotalSize, Ordered, Prefixed, Tallied, Staged, Concluded;
  }

  /** One whole call of `submit`, not interrupted by anyone. */
  function Submission(p: nat, record: Record): seq<Step> {
    [] + [Submit(p, record)] + [CheckActive(p)] + [CheckSize(p)] + [Decide(p)] + [CountRejection(p)]
  }

  lemma RunFive(r: Recorder, a: Step, b: Step, c: Step, d: Step, e: Step)
    ensures Run(r, [] + [a] + [b] + [c] + [d] + [e])
            == Advance(Advance(Advance(Advance(Advance(r, a), b), c), d), e)
  {
    assert Run(r, []) == r;
    hide Run, Advance;
    RunOn(r, [], a);
    RunOn(r, [] + [a], b);
    RunOn(r, [] + [a] + [b], c);
    RunOn(r, [] + [a] + [b] + [c], d);
    RunOn(r, [] + [a] + [b] + [c] + [d], e);
  }

  lemma Reseated(producers: seq<Producer>, p: nat, first: Producer, second: Producer)
    requires p < |producers|
    ensures producers[p := first][p := second] == producers[p := second]
    ensures producers[p].Idle? ==> producers[p := Idle] == producers
  {
  }

  /** The record is counted as submitted; then the producer stands between its two checks. */
  lemma SubmissionBegins(r: Recorder, p: nat, record: Record)
    requires Inv(r) && p < |r.producers| && r.producers[p].Idle?
    ensures var t := Advance(Advance(r, Submit(p, record)), CheckActive(p));
            && Inv(t) && t.submitted == Bump(r.submitted, record.stream)
            && (if r.Active() then t == r.(producers := r.producers[p := Sizing(record)], submitted := t.submitted)
                else t == r.(producers := r.producers[p := Rejecting(record)], submitted := t.submitted,
                             decisions := r.decisions + [Decision(record, false)]))
  {
    AdvanceKeeps(r, Submit(p, record));
    AdvanceKeeps(Advance(r, Submit(p, record)), CheckActive(p));
    hide Inv;
    var submitted := Advance(r, Submit(p, record));
    assert submitted == r.(producers := r.producers[p := Submitted(record)], submitted := submitted.submitted);
    Reseated(r.producers, p, Submitted(record), Sizing(record));
    Reseated(r.producers, p, Submitted(record), Rejecting(record));
  }

  lemma SubmissionIsSized(r: Recorder, p: nat)
    requires Inv(r) && p < |r.producers| && r.producers[p].Sizing? && r.Active()
    ensures var record, t := r.producers[p].record, Advance(Advance(r, CheckSize(p)), Decide(p));
            var ok := Room(r, record);
            && t.decisions == r.decisions + [Decision(record, ok)]
            && t.shelf.queue == (if ok then r.shelf.queue + [record] else r.shelf.queue)
            && t.producers == r.producers[p := if ok then Idle else Rejecting(record)]
            && t.failure == (if ok then r.failure else Backlog)
            && t.submitted == r.submitted && t.rejected == r.rejected
  {
    var record := r.producers[p].record;
    AdvanceKeeps(r, CheckSize(p));
    hide Inv, TotalSize, Size;
    if Size(record.chunks) <= r.shelf.byteLimit {
      var sized := Advance(r, CheckSize(p));
      assert sized == r.(producers := r.producers[p := Deciding(record)]);
      AdmittedExactlyWithRoom(sized, p);
      Reseated(r.producers, p, Deciding(record), if Room(r, record) then Idle else Rejecting(record));
    }
  }

  /**
   * A call of `submit` that nobody interrupts puts its record at the end of the queue exactly if the recorder
   * is active and has room for it; otherwise it is counted as rejected, and a lack of room is the backlog
   * failure. The producer is idle again either way.
   */
  lemma SubmissionIsDecidedByRoom(r: Recorder, p: nat, record: Record)
    requires Inv(r) && p < |r.producers| && r.producers[p].Idle?
    ensures var t, ok := Run(r, Submission(p, record)), r.Active() && Room(r, record);
            && t.producers == r.producers && t.decisions == r.decisions + [Decision(record, ok)]
            && t.shelf.queue == (if ok then r.shelf.queue + [record] else r.shelf.queue)
            && t.failure == (if ok || !r.Active() then r.failure else Backlog)
            && (forall s :: t.submitted(s) == r.submitted(s) + if s == record.stream then 1 else 0)
            && (forall s :: t.rejected(s) == r.rejected(s) + if s == record.stream && !ok then 1 else 0)
  {
    RunFive(r, Submit(p, record), CheckActive(p), CheckSize(p), Decide(p), CountRejection(p));
    hide Run, Inv, Room, Advance;
    SubmissionBegins(r, p, record);
    var begun := Advance(Advance(r, Submit(p, record)), CheckActive(p));
    var decided := Advance(Advance(begun, CheckSize(p)), Decide(p));
    if r.Active() {
      RoomStays(r, begun, record);
      SubmissionIsSized(begun, p);
      Reseated(r.producers, p, Sizing(record), if Room(r, record) then Idle else Rejecting(record));
    } else {
      RefusedAlready(begun, p);
    }
    RejectionIsCounted(decided, p);
    Reseated(r.producers, p, if r.Active() && Room(r, record) then Idle else Rejecting(record), Idle);
  }

  lemma RefusedAlready(r: Recorder, p: nat)
    requires p < |r.producers| && r.producers[p].Rejecting?
    ensures Advance(Advance(r, CheckSize(p)), Decide(p)) == r
  {
  }

  lemma RejectionIsCounted(r: Recorder, p: nat)
    requires p < |r.producers| && (r.producers[p].Idle? || r.producers[p].Rejecting?)
    ensures var t, held := Advance(r, CountRejection(p)), r.producers[p];
            t == if held.Idle? then r
                 else r.(producers := r.producers[p := Idle], rejected := Bump(r.rejected, held.record.stream))
  {
  }

  lemma RoomStays(r: Recorder, t: Recorder, record: Record)
    requires t.shelf == r.shelf
    ensures Room(t, record) == Room(r, record)
  {
  }

  // ---- naming the failure

  /** The step finds a record too large, or no room for one. */
  predicate Overflows(r: Recorder, step: Step) {
    match step
    case CheckSize(p) =>
      p < |r.producers| && r.producers[p].Sizing? && Size(r.producers[p].record.chunks) > r.shelf.byteLimit
    case Decide(p) =>
      p < |r.producers| && r.producers[p].Deciding? && r.Active() && !Room(r, r.producers[p].record)
    case _ => false
  }

  /** The step reports that the sink threw, or that its finish threw or ended badly. */
  predicate StorageFails(r: Recorder, step: Step) {
    || (step.NoteWriteFailure? && r.worker.Failing?)
    || (step.FinishReturns? && step.bad && r.worker.Finishing?)
    || (step.NoteFinishFailure? && r.worker.FinishFailing?)
  }

  lemma ProducersNameBacklog(r: Recorder, step: Step)
    requires Inv(r) && r.failure.NoFailure? && step.ByProducer()
    ensures Produce(r, step).failure == if Overflows(r, step) then Backlog else NoFailure
  {
    hide Size, TotalSize, Ordered, Prefixed, Tallied, Staged, Concluded;
  }

  lemma WriterNamesStorage(r: Recorder, step: Step)
    requires r.failure.NoFailure?
    ensures Write(r, step).failure == if StorageFails(r, step) then Storage else NoFailure
  {
    hide Size;
  }

  lemma OwnerNamesTimeout(r: Recorder, step: Step)
    requires r.failure.NoFailure? && (r.shelf.done <==> r.finished)
    ensures Own(r, step).failure
            == if step.TimeOut? && r.owner.Closing? && !r.finished then ShutdownTimeout else NoFailure
  {
  }

  /** The first failure is recorded under its own name, and nothing else is recorded as one. */
  lemma FirstFailureIsNamed(r: Recorder, step: Step)
    requires Inv(r) && r.failure.NoFailure?
    ensures var f := Advance(r, step).failure;
            && (f.Storage? <==> StorageFails(r, step))
            && (f.Backlog? <==> Overflows(r, step))
            && (f.ShutdownTimeout? <==> step.TimeOut? && r.owner.Closing? && !r.finished)
            && !f.WriterBusy?
  {
    hide Produce, Write, Own, Room, Size;
    if step.ByProducer() {
      ProducersNameBacklog(r, step);
    } else {
      hide Inv;
      WriterNamesStorage(r, step);
      FinishedIsDone(r);
      OwnerNamesTimeout(r, step);
    }
  }

  lemma FinishedIsDone(r: Recorder)
    requires Inv(r)
    ensures r.shelf.done <==> r.finished
  {
  }

  // ---- the sink's finish

  lemma EndingStays(r: Recorder, step: Step)
    requires Inv(r) && !r.ending.Unfinished?
    ensures Advance(r, step).ending == r.ending
  {
    hide Size, TotalSize, Ordered, Prefixed, Tallied, Concluded;
  }

  /** A recording whose sink did not finish well is never complete. */
  lemma {:induction false} BadEndingIsNeverComplete(r: Recorder, steps: seq<Step>)
    requires Inv(r) && (r.ending.EndedBadly? || r.ending.EndThrew?)
    ensures Inv(Run(r, steps)) && Run(r, steps).ending == r.ending && !Run(r, steps).Complete()
  {
    hide Advance;
    if steps == [] {
    } else {
      BadEndingIsNeverComplete(r, steps[..|steps| - 1]);
      EndingStays(Run(r, steps[..|steps| - 1]), steps[|steps| - 1]);
      AdvanceKeeps(Run(r, steps[..|steps| - 1]), steps[|steps| - 1]);
    }
  }

  /**
   * A sink whose finish ends badly or throws disqualifies the recording for good, whatever follows; the
   * reason given is storage unless something had failed before it was noted.
   */
  lemma FailedFinishDisqualifies(r: Recorder, after: seq<Step>)
    requires Inv(r) && r.worker.Finishing?
    ensures var bad := Advance(r, FinishReturns(true));
            && bad.failure == (if r.failure.NoFailure? then Storage else r.failure) && !Run(bad, after).Complete()
    ensures var thrown := Run(Advance(r, FinishThrows), after);
            && !thrown.Complete()
            && (thrown.worker.FinishFailing? ==>
                  Advance(thrown, NoteFinishFailure).failure
                  == if thrown.failure.NoFailure? then Storage else thrown.failure)
  {
    hide Run, Inv, Advance;
    AdvanceKeeps(r, FinishReturns(true));
    AdvanceKeeps(r, FinishThrows);
    FinishFails(r);
    BadEndingIsNeverComplete(Advance(r, FinishReturns(true)), after);
    BadEndingIsNeverComplete(Advance(r, FinishThrows), after);
    FailureIsNoted(Run(Advance(r, FinishThrows), after));
  }

  lemma FinishFails(r: Recorder)
    requires r.worker.Finishing?
    ensures Advance(r, FinishThrows).ending.EndThrew?
    ensures var bad := Advance(r, FinishReturns(true));
            bad.ending.EndedBadly? && bad.failure == if r.failure.NoFailure? then Storage else r.failure
  {
  }

  lemma FailureIsNoted(r: Recorder)
    ensures r.worker.FinishFailing? ==>
              Advance(r, NoteFinishFailure).failure == if r.failure.NoFailure? then Storage else r.failure
  {
  }

  // ---- draining

  /** Nothing has gone wrong so far. */
  predicate Healthy(r: Recorder) {
    r.failure.NoFailure? && !r.threw && !r.ending.EndThrew? && !r.finished
  }

  /** The step the writer takes if its sink does as it is told. */
  function NextGood(w: Worker): Step {
    match w
    case Holding(_) => WriteReturns
    case Counting(_) => CountWrite
    case Draining => SeeClosing
    case Finishing => FinishReturns(false)
    case Completing => Conclude
    case _ => Take
  }

  function Work(r: Recorder): nat {
    4 * |r.shelf.queue| + match r.worker
                          case Holding(_) => 6
                          case Counting(_) => 5
                          case Waiting => 4
                          case Draining => 3
                          case Finishing => 2
                          case _ => 1
  }

  lemma GoodStep(r: Recorder)
    requires Inv(r) && Healthy(r) && r.shelf.closing
    ensures var t := Advance(r, NextGood(r.worker));
            && t.failure.NoFailure? && t.shelf.closing && t.decisions == r.decisions && t.producers == r.producers
            && (!t.finished ==> Healthy(t) && Work(t) < Work(r))
  {
    hide Size, Ordered, Prefixed, Tallied, Concluded;
  }

  lemma {:induction false} RunFrom(r: Recorder, first: Step, rest: seq<Step>)
    ensures Run(r, [first] + rest) == Run(Advance(r, first), rest)
  {
    hide Advance;
    if rest == [] {
      assert [first] + rest == [first] && [first][..0] == [];
      assert Run(r, [first][..0]) == r;
    } else {
      assert ([first] + rest)[..|rest|] == [first] + rest[..|rest| - 1];
      RunFrom(r, first, rest[..|rest| - 1]);
    }
  }

  lemma {:induction false} DrainsOnceClosing(r: Recorder) returns (steps: seq<Step>)
    requires Inv(r) && Healthy(r) && r.shelf.closing
    ensures var t := Run(r, steps);
            && Inv(t) && t.Complete() && t.decisions == r.decisions && t.producers == r.producers
    ensures forall i :: 0 <= i < |steps| ==> !steps[i].ByProducer()
    decreases Work(r)
  {
    var step := NextGood(r.worker);
    var t := Advance(r, step);
    GoodStep(r);
    AdvanceKeeps(r, step);
    hide Inv, Advance, Healthy, Work;
    var rest := [];
    if !t.finished {
      rest := DrainsOnceClosing(t);
    } else {
      assert Run(t, []) == t;
    }
    RunFrom(r, step, rest);
    steps := [step] + rest;
  }

  /**
   * A recording can always be completed: from every reachable state in which nothing has failed, the owner
   * and a writer whose sink works lead to a complete recording of everything accepted so far, counted stream
   * by stream, without any producer's help.
   */
  lemma CanAlwaysComplete(r: Recorder) returns (steps: seq<Step>)
    requires Inv(r) && Healthy(r)
    ensures forall i :: 0 <= i < |steps| ==> !steps[i].ByProducer()
    ensures var t := Run(r, steps);
            && t.Complete() && t.decisions == r.decisions && t.producers == r.producers
            && t.writes == Decided(r.decisions, true) && forall s :: t.written(s) == Count(t.writes, s)
  {
    if r.shelf.closing {
      steps := DrainsOnceClosing(r);
    } else {
      var closing := Advance(r, Close);
      AdvanceKeeps(r, Close);
      var rest := DrainsOnceClosing(closing);
      RunFrom(r, Close, rest);
      steps := [Close] + rest;
    }
    CompleteIsCounted(Run(r, steps));
  }

  lemma CompleteIsCounted(t: Recorder)
    requires Inv(t) && t.Complete()
    ensures t.writes == Decided(t.decisions, true) && forall s :: t.written(s) == Count(t.writes, s)
  {
    forall s
      ensures t.written(s) == Count(t.writes, s)
    {
      CompleteMeansWritten(t, s);
      assert Tallied(t, s);
    }
    CompleteMeansWritten(t, Accel);
    assert t.writes + InFlight(t.worker) + t.lost + t.shelf.queue == t.writes;
  }

  /** The close returns exactly when the writer is done, or at the timeout of one that is not, which is then the failure. */
  lemma CloseReturnsExactly(r: Recorder)
    requires Inv(r) && r.owner.Closing?
    ensures Advance(r, SeeDone).owner.Closed? <==> r.finished
    ensures var t := Advance(r, TimeOut);
            if r.finished then t == r
            else t.owner.Closed? && t.failure == if r.failure.NoFailure? then ShutdownTimeout else r.failure
  {
    hide Consistent;
  }

  // ---- taking completeness back

  /** A producer stands between its two checks with a record that is too large. */
  ghost predicate OversizedUnderWay(r: Recorder) {
    exists p :: Oversized(r, p)
  }

  predicate Oversized(r: Recorder, p: int) {
    0 <= p < |r.producers| && r.producers[p].Sizing? && Size(r.producers[p].record.chunks) > r.shelf.byteLimit
  }

  lemma CompleteUnlessOversized(r: Recorder, step: Step)
    requires Inv(r) && r.Complete()
    ensures Advance(r, step).Complete() <==> !(step.CheckSize? && Oversized(r, step.p))
  {
    hide Size, TotalSize, Ordered, Prefixed, Tallied, Concluded;
  }

  lemma NoneBecomesOversized(r: Recorder, step: Step)
    requires Inv(r) && r.Complete() && !OversizedUnderWay(r)
    ensures !OversizedUnderWay(Advance(r, step))
  {
    hide Inv, Write, Own, Produce;
    if step.ByProducer() {
      forall p
        ensures !Oversized(Produce(r, step), p)
      {
        assert !Oversized(r, p);
        ProducerIsNotOversized(r, step, p);
      }
    } else {
      WriteKeepsLimits(r, step);
      OwnKeepsLimits(r, step);
      ProducersStay(r, step);
      assert forall p :: Oversized(Advance(r, step), p) ==> Oversized(r, p);
    }
  }

  lemma ProducerIsNotOversized(r: Recorder, step: Step, p: int)
    requires r.finished && step.ByProducer() && !Oversized(r, p)
    ensures !Oversized(Produce(r, step), p)
  {
    ProduceKeepsLimits(r, step);
    hide Size;
  }

  lemma ProducersStay(r: Recorder, step: Step)
    ensures Write(r, step).producers == r.producers && Own(r, step).producers == r.producers
  {
    hide Size;
  }

  lemma {:induction false} StaysComplete(r: Recorder, steps: seq<Step>)
    requires Inv(r) && r.Complete() && !OversizedUnderWay(r)
    ensures Inv(Run(r, steps)) && Run(r, steps).Complete() && !OversizedUnderWay(Run(r, steps))
  {
    hide Advance, Inv, OversizedUnderWay;
    if steps == [] {
    } else {
      var before, last := Run(r, steps[..|steps| - 1]), steps[|steps| - 1];
      StaysComplete(r, steps[..|steps| - 1]);
      NoneBecomesOversized(before, last);
      CompleteUnlessOversized(before, last);
      NotOversized(before, last);
      AdvanceKeeps(before, last);
    }
  }

  lemma NotOversized(r: Recorder, step: Step)
    requires !OversizedUnderWay(r)
    ensures !(step.CheckSize? && Oversized(r, step.p))
  {
  }

  /**
   * A complete recording stays complete, whatever happens, if and only if no producer was caught between its
   * two checks with a record larger than the byte limit.
   */
  lemma CompleteStaysExactlyUnlessOversized(r: Recorder)
    requires Inv(r) && r.Complete()
    ensures (forall steps :: Run(r, steps).Complete()) <==> !OversizedUnderWay(r)
  {
    if OversizedUnderWay(r) {
      var p :| Oversized(r, p);
      CompleteUnlessOversized(r, CheckSize(p));
      RunFrom(r, CheckSize(p), []);
      assert !Run(r, [CheckSize(p)] + []).Complete();
    } else {
      forall steps
        ensures Run(r, steps).Complete()
      {
        StaysComplete(r, steps);
      }
    }
  }

  /** It can be: a reachable recording is complete, and then a record that was too large makes it incomplete. */
  lemma CompletenessCanBeTakenBack(record: Record) returns (steps: seq<Step>)
    requires Size(record.chunks) > 1
    ensures Run(Create(1, 1, 1, false), steps).Complete()
    ensures !Run(Create(1, 1, 1, false), steps + [CheckSize(0)]).Complete()
  {
    hide Run, Inv, Advance, Size, Create;
    var empty := Create(1, 1, 1, false);
    OversizedBegins(record);
    var begun := Advance(Advance(empty, Submit(0, record)), CheckActive(0));
    var rest := CanAlwaysComplete(begun);
    RunFrom(Advance(empty, Submit(0, record)), CheckActive(0), rest);
    RunFrom(empty, Submit(0, record), [CheckActive(0)] + rest);
    steps := [Submit(0, record)] + ([CheckActive(0)] + rest);
    RunKeeps(empty, steps);
    LimitsKept(empty, steps);
    assert Oversized(Run(empty, steps), 0);
    CompleteUnlessOversized(Run(empty, steps), CheckSize(0));
    RunOn(empty, steps, CheckSize(0));
  }

  lemma OversizedBegins(record: Record)
    ensures var empty := Create(1, 1, 1, false); var begun := Advance(Advance(empty, Submit(0, record)), CheckActive(0));
            && Inv(empty) && empty.shelf.byteLimit == 1
            && Inv(begun) && Healthy(begun) && begun.producers == [Sizing(record)]
  {
    hide Inv, Advance, Create;
    CreateHolds(1, 1, 1, false);
    NewRecording();
    SubmissionBegins(Create(1, 1, 1, false), 0, record);
  }

  lemma NewRecording()
    ensures var empty := Create(1, 1, 1, false);
            Healthy(empty) && empty.shelf.byteLimit == 1 && empty.producers == [Idle]
  {
  }

  lemma {:induction false} LimitsKept(r: Recorder, steps: seq<Step>)
    ensures Run(r, steps).shelf.byteLimit == r.shelf.byteLimit
  {
    hide Advance;
    if steps == [] {
    } else {
      LimitsKept(r, steps[..|steps| - 1]);
      StepKeepsLimits(Run(r, steps[..|steps| - 1]), steps[|steps| - 1]);
    }
  }
}
