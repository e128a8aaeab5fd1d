/** What a recording may be trusted for, under every interleaving of producers, writer and owner. */
module RecorderTheorems {
  import opened Recorders
  import opened RecorderModel
  import opened RecorderProofs

  /** A recorder after any steps: every one satisfies the invariant. */
  ghost function Reach(byteLimit: nat, recordLimit: nat, producers: nat, slotTaken: bool, steps: seq<Step>)
    : (r: Recorder)
    requires 0 < byteLimit && 0 < recordLimit
    ensures Inv(r)
  {
    if steps == [] then
      CreateHolds(byteLimit, recordLimit, producers, slotTaken);
      Create(byteLimit, recordLimit, producers, slotTaken)
    else
      var before := Reach(byteLimit, recordLimit, producers, slotTaken, steps[..|steps| - 1]);
      AdvanceKeeps(before, steps[|steps| - 1]);
      Advance(before, steps[|steps| - 1])
  }

  /** The records of the decisions, in the order they were taken. */
  function Records(decisions: seq<Decision>): seq<Record> {
    if decisions == [] then [] else Records(decisions[..|decisions| - 1]) + [decisions[|decisions| - 1].record]
  }

  lemma {:induction false} AcceptedPrefix(decisions: seq<Decision>, n: nat)
    requires n <= |decisions|
    requires forall i :: 0 <= i < |decisions| ==> (decisions[i].accepted <==> i < n)
    ensures Decided(decisions, true) == Records(decisions[..n])
    ensures Decided(decisions, false) == Records(decisions[n..])
    ensures Records(decisions) == Records(decisions[..n]) + Records(decisions[n..])
  {
    if decisions == [] {
    } else {
      var m := |decisions| - 1;
      var rest := decisions[..m];
      if n == |decisions| {
        AcceptedPrefix(rest, m);
        assert rest[..m] == rest && rest[m..] == [];
        assert decisions[..n] == decisions && decisions[n..] == [];
      } else {
        AcceptedPrefix(rest, n);
        assert decisions[..n] == rest[..n];
        assert decisions[n..][..|decisions[n..]| - 1] == rest[n..];
      }
    }
  }

  lemma {:induction false} RefusalsComeLast(decisions: seq<Decision>) returns (n: nat)
    requires forall i, j :: 0 <= i < j < |decisions| && !decisions[i].accepted ==> !decisions[j].accepted
    ensures n <= |decisions| && forall i :: 0 <= i < |decisions| ==> (decisions[i].accepted <==> i < n)
  {
    if decisions == [] {
      n := 0;
    } else if decisions[|decisions| - 1].accepted {
      n := |decisions|;
    } else {
      n := RefusalsComeLast(decisions[..|decisions| - 1]);
    }
  }

  /**
   * Honest prefix: what the sink wrote is a prefix of what was accepted, and what was accepted is a
   * prefix of all decided submissions in the order they were decided: the recording never hides a hole.
   */
  lemma HonestPrefix(r: Recorder)
    requires Inv(r)
    ensures r.writes <= Decided(r.decisions, true) <= Records(r.decisions)
  {
    var n := RefusalsComeLast(r.decisions);
    AcceptedPrefix(r.decisions, n);
  }

  /**
   * Conservation: of every stream, each submission is written, lost, queued, in the writer's hand,
   * rejected, or still inside `submit`; and nothing is lost unless the sink threw.
   */
  lemma NothingVanishes(r: Recorder, s: Stream)
    requires Inv(r)
    ensures r.submitted(s) == Count(r.writes, s) + Count(InFlight(r.worker), s) + Count(r.lost, s)
                              + Count(r.shelf.queue, s) + r.rejected(s)
                              + InHand(r.producers, s, true) + InHand(r.producers, s, false)
    ensures r.lost != [] ==> r.threw
  {
    assert Tallied(r, s);
    CountConcat(r.writes + InFlight(r.worker) + r.lost, r.shelf.queue, s);
    CountConcat(r.writes + InFlight(r.worker), r.lost, s);
    CountConcat(r.writes, InFlight(r.worker), s);
  }

  /**
   * A complete recording holds exactly the submissions decided before it finished, and its sink finished well.
   * Submissions that came later were all refused, and are all that separates the submitted from the written
   * counts.
   */
  lemma CompleteMeansWritten(r: Recorder, s: Stream)
    requires Inv(r) && r.Complete()
    ensures r.ending.EndedWell?
    ensures r.decidedAtFinish <= |r.decisions|
    ensures r.writes == Records(r.decisions[..r.decidedAtFinish]) && r.lost == [] && r.shelf.queue == []
    ensures Decided(r.decisions, false) == Records(r.decisions[r.decidedAtFinish..])
    ensures var late := Count(Records(r.decisions[r.decidedAtFinish..]), s);
            && r.submitted(s) == r.written(s) + late + InHand(r.producers, s, false)
            && r.rejected(s) + InHand(r.producers, s, true) == late
  {
    assert Tallied(r, s);
    AcceptedPrefix(r.decisions, r.decidedAtFinish);
    assert InFlight(r.worker) == [];
  }

  /** The owner's close returns only for a complete recording or one whose failure is recorded. */
  lemma ClosedIsDecided(r: Recorder)
    requires Inv(r) && r.owner.Closed?
    ensures r.Complete() || !r.failure.NoFailure?
  {
  }

  /** What every recorder may be trusted for, of one stream. */
  ghost predicate Honest(r: Recorder, s: Stream) {
    && r.writes <= Decided(r.decisions, true) <= Records(r.decisions)
    && r.submitted(s) == Count(r.writes, s) + Count(InFlight(r.worker), s) + Count(r.lost, s)
                         + Count(r.shelf.queue, s) + r.rejected(s)
                         + InHand(r.producers, s, true) + InHand(r.producers, s, false)
    && (r.lost != [] ==> r.threw)
    && (r.Complete() ==> r.decidedAtFinish <= |r.decisions| && r.writes == Records(r.decisions[..r.decidedAtFinish])
                         && r.lost == [] && r.ending.EndedWell?)
    && (r.owner.Closed? ==> r.Complete() || !r.failure.NoFailure?)
  }

  lemma ConsistentIsHonest(r: Recorder, s: Stream)
    requires Inv(r)
    ensures Honest(r, s)
  {
    if r.owner.Closed? {
      ClosedIsDecided(r);
    }
    hide Inv, Decided, Records, Count, InHand;
    HonestPrefix(r);
    NothingVanishes(r, s);
    if r.Complete() {
      CompleteMeansWritten(r, s);
    }
  }

  /** The same, for every recorder and every interleaving of its producers, writer and owner. */
  lemma EveryRunIsHonest(byteLimit: nat, recordLimit: nat, producers: nat, slotTaken: bool, steps: seq<Step>, s: Stream)
    requires 0 < byteLimit && 0 < recordLimit
    ensures Honest(Reach(byteLimit, recordLimit, producers, slotTaken, steps), s)
  {
    hide Inv, Reach, Honest;
    ConsistentIsHonest(Reach(byteLimit, recordLimit, producers, slotTaken, steps), s);
  }

  // ---- producers that stop in time

  ghost predicate AllHandsIdle(r: Recorder) {
    forall p :: 0 <= p < |r.producers| ==> r.producers[p].Idle?
  }

  lemma {:induction false} IdleHandsWeighNothing(producers: seq<Producer>, s: Stream, rejecting: bool)
    requires forall p :: 0 <= p < |producers| ==> producers[p].Idle?
    ensures InHand(producers, s, rejecting) == 0
  {
    if producers == [] {
    } else {
      IdleHandsWeighNothing(producers[..|producers| - 1], s, rejecting);
    }
  }

  lemma QuietStep(r: Recorder, step: Step)
    requires !step.ByProducer() && (r.finished ==> r.decidedAtFinish == |r.decisions|)
    ensures var t := Advance(r, step);
            && t.producers == r.producers && t.decisions == r.decisions
            && (t.finished ==> t.decidedAtFinish == |t.decisions|)
  {
  }

  /** Once producers are idle and stay so, no more is decided, and a finish sees every decision. */
  lemma {:induction false} QuietRun(r: Recorder, steps: seq<Step>)
    requires AllHandsIdle(r) && (r.finished ==> r.decidedAtFinish == |r.decisions|)
    requires forall i :: 0 <= i < |steps| ==> !steps[i].ByProducer()
    ensures var t := Run(r, steps);
            && AllHandsIdle(t) && (t.finished ==> t.decidedAtFinish == |t.decisions|)
            && t.decisions == r.decisions
  {
    if steps == [] {
    } else {
      QuietRun(r, steps[..|steps| - 1]);
      QuietStep(Run(r, steps[..|steps| - 1]), steps[|steps| - 1]);
    }
  }

  /**
   * Completeness: if the producers have stopped before the owner closes the recorder, then a complete
   * recording has every submitted record of every stream written and none rejected.
   */
  lemma StoppedProducersAreAllWritten(r: Recorder, after: seq<Step>, s: Stream)
    requires Inv(r) && AllHandsIdle(r) && r.owner.Open?
    requires forall i :: 0 <= i < |after| ==> !after[i].ByProducer()
    requires Run(Advance(r, Close), after).Complete()
    ensures var t := Run(Advance(r, Close), after);
            t.submitted(s) == t.written(s) && t.rejected(s) == 0 && t.writes == Records(t.decisions)
  {
    hide Inv, Run, Advance;
    var closing := Advance(r, Close);
    AdvanceKeeps(r, Close);
    RunKeeps(closing, after);
    ClosingLeavesHandsIdle(r);
    QuietRun(closing, after);
    AllWritten(Run(closing, after), s);
  }

  lemma ClosingLeavesHandsIdle(r: Recorder)
    requires Inv(r) && AllHandsIdle(r) && r.owner.Open?
    ensures AllHandsIdle(Advance(r, Close)) && !Advance(r, Close).finished
  {
  }

  lemma AllWritten(t: Recorder, s: Stream)
    requires Inv(t) && t.Complete() && AllHandsIdle(t) && t.decidedAtFinish == |t.decisions|
    ensures t.submitted(s) == t.written(s) && t.rejected(s) == 0 && t.writes == Records(t.decisions)
  {
    CompleteMeansWritten(t, s);
    IdleHandsWeighNothing(t.producers, s, false);
    IdleHandsWeighNothing(t.producers, s, true);
    assert t.decisions[..t.decidedAtFinish] == t.decisions && t.decisions[t.decidedAtFinish..] == [];
  }

  lemma {:induction false} RunKeeps(r: Recorder, steps: seq<Step>)
    requires Inv(r)
    ensures Inv(Run(r, steps))
  {
    if steps == [] {
    } else {
      RunKeeps(r, steps[..|steps| - 1]);
      AdvanceKeeps(Run(r, steps[..|steps| - 1]), steps[|steps| - 1]);
    }
  }

  lemma {:induction false} RecordsCount(decisions: seq<Decision>, i: nat)
    requires i < |decisions|
    ensures Count(Records(decisions), decisions[i].record.stream) > 0
  {
    var n := |decisions| - 1;
    CountSnoc(Records(decisions[..n]), decisions[n].record, decisions[i].record.stream);
    if i < n {
      RecordsCount(decisions[..n], i);
    }
  }

  lemma {:induction false} HandsCount(producers: seq<Producer>, p: nat)
    requires p < |producers| && !producers[p].Idle?
    ensures InHand(producers, producers[p].record.stream, producers[p].Rejecting?) > 0
  {
    if p == |producers| - 1 {
    } else {
      HandsCount(producers[..|producers| - 1], p);
    }
  }

  /**
   * Without that discipline completeness says less: a complete recording has all its submissions written
   * exactly when no submission was decided after the finish and none is under way.
   */
  lemma CompleteIsTotalExactlyWithoutLatecomers(r: Recorder)
    requires Inv(r) && r.Complete()
    ensures (forall s :: r.submitted(s) == r.written(s))
            <==> r.decidedAtFinish == |r.decisions| && forall p :: 0 <= p < |r.producers| ==>
                                                         r.producers[p].Idle? || r.producers[p].Rejecting?
  {
    if forall s :: r.submitted(s) == r.written(s) {
      if r.decidedAtFinish < |r.decisions| {
        RecordsCount(r.decisions[r.decidedAtFinish..], 0);
        CompleteMeansWritten(r, r.decisions[r.decidedAtFinish].record.stream);
      }
      forall p | 0 <= p < |r.producers|
        ensures r.producers[p].Idle? || r.producers[p].Rejecting?
      {
        if !r.producers[p].Idle? && !r.producers[p].Rejecting? {
          HandsCount(r.producers, p);
          CompleteMeansWritten(r, r.producers[p].record.stream);
        }
      }
    } else {
      var s :| r.submitted(s) != r.written(s);
      CompleteMeansWritten(r, s);
      if r.decidedAtFinish == |r.decisions| {
        assert r.decisions[r.decidedAtFinish..] == [];
        BusyHand(r.producers, s);
      }
    }
  }

  lemma {:induction false} BusyHand(producers: seq<Producer>, s: Stream)
    requires InHand(producers, s, false) > 0
    ensures exists p :: 0 <= p < |producers| && !producers[p].Idle? && !producers[p].Rejecting?
  {
    var n := |producers| - 1;
    if producers[n].Idle? || producers[n].Rejecting? {
      BusyHand(producers[..n], s);
      var p :| 0 <= p < n && !producers[..n][p].Idle? && !producers[..n][p].Rejecting?;
      assert producers[p] == producers[..n][p];
    }
  }

  lemma RunOn(r: Recorder, steps: seq<Step>, step: Step)
    ensures Run(r, steps + [step]) == Advance(Run(r, steps), step)
  {
    hide Advance;
    assert (steps + [step])[..|steps|] == steps;
  }

  /** An empty recording is closed and finished; then one producer submits a record. */
  function Latecoming(record: Record): seq<Step> {
    [] + [Close] + [Take] + [SeeClosing] + [FinishReturns(false)] + [Conclude]
       + [Submit(0, record)] + [CheckActive(0)] + [CountRejection(0)]
  }

  /** An empty recording with its writer at this place, nothing submitted yet. */
  ghost predicate Untouched(r: Recorder, worker: Worker) {
    && r.failure.NoFailure? && r.producers == [Idle] && r.worker == worker && r.decisions == []
    && r.submitted == NONE && r.written == NONE && r.rejected == NONE && r.shelf.queue == []
  }

  lemma NewRecordingIsUntouched()
    ensures var r := Create(1, 1, 1, false); Untouched(r, Waiting) && !r.finished && r.owner.Open?
  {
  }

  lemma UntouchedCloses(r: Recorder)
    requires Untouched(r, Waiting) && !r.finished && r.owner.Open?
    ensures var t := Advance(r, Close); Untouched(t, Waiting) && !t.finished && t.shelf.closing
  {
  }

  lemma UntouchedDrains(r: Recorder)
    requires Untouched(r, Waiting) && !r.finished && r.shelf.closing
    ensures var t := Advance(r, Take); Untouched(t, Draining) && !t.finished && t.shelf.closing
  {
  }

  lemma UntouchedFinishes(r: Recorder)
    requires Untouched(r, Draining) && !r.finished && r.shelf.closing
    ensures var t := Advance(r, SeeClosing); Untouched(t, Finishing) && !t.finished
  {
  }

  lemma EmptyRecordingCloses(r: Recorder)
    requires Untouched(r, Waiting) && !r.finished && r.owner.Open?
    ensures var t := Run(r, [] + [Close] + [Take] + [SeeClosing]); Untouched(t, Finishing) && !t.finished
  {
    assert Run(r, []) == r;
    hide Run, Advance, Untouched;
    RunOn(r, [], Close);
    RunOn(r, [] + [Close], Take);
    RunOn(r, [] + [Close] + [Take], SeeClosing);
    UntouchedCloses(r);
    UntouchedDrains(Advance(r, Close));
    UntouchedFinishes(Advance(Advance(r, Close), Take));
  }

  lemma UntouchedConcludes(r: Recorder)
    requires Untouched(r, Finishing)
    ensures var t := Advance(Advance(r, FinishReturns(false)), Conclude);
            Untouched(t, Releasing) && t.finished && t.decidedAtFinish == 0
  {
  }

  lemma EmptyRecordingFinishes(r: Recorder, steps: seq<Step>)
    requires Untouched(Run(r, steps), Finishing)
    ensures var t := Run(r, steps + [FinishReturns(false)] + [Conclude]);
            Untouched(t, Releasing) && t.finished && t.decidedAtFinish == 0
  {
    hide Run, Advance, Untouched;
    RunOn(r, steps, FinishReturns(false));
    RunOn(r, steps + [FinishReturns(false)], Conclude);
    UntouchedConcludes(Run(r, steps));
  }

  /** What is left of a finished recorder once a late record is refused. */
  ghost predicate Refused(r: Recorder, record: Record) {
    && r.Complete() && r.decisions == [Decision(record, false)] && r.decidedAtFinish == 0
    && r.submitted(record.stream) == 1 && r.written(record.stream) == 0 && r.rejected(record.stream) == 1
  }

  lemma UntouchedRefuses(r: Recorder, record: Record)
    requires Untouched(r, Releasing) && r.finished && r.decidedAtFinish == 0
    ensures Refused(Advance(Advance(Advance(r, Submit(0, record)), CheckActive(0)), CountRejection(0)), record)
  {
  }

  lemma LatecomerIsRefused(r: Recorder, steps: seq<Step>, record: Record)
    requires Untouched(Run(r, steps), Releasing) && Run(r, steps).finished && Run(r, steps).decidedAtFinish == 0
    ensures Refused(Run(r, steps + [Submit(0, record)] + [CheckActive(0)] + [CountRejection(0)]), record)
  {
    hide Run, Advance, Untouched, Refused;
    RunOn(r, steps, Submit(0, record));
    RunOn(r, steps + [Submit(0, record)], CheckActive(0));
    RunOn(r, steps + [Submit(0, record)] + [CheckActive(0)], CountRejection(0));
    UntouchedRefuses(Run(r, steps), record);
  }

  lemma {:induction false} ReachIsRun(byteLimit: nat, recordLimit: nat, producers: nat, slotTaken: bool,
                                      steps: seq<Step>)
    requires 0 < byteLimit && 0 < recordLimit
    ensures Reach(byteLimit, recordLimit, producers, slotTaken, steps)
            == Run(Create(byteLimit, recordLimit, producers, slotTaken), steps)
  {
    hide Advance, Create, Inv;
    if steps == [] {
    } else {
      ReachIsRun(byteLimit, recordLimit, producers, slotTaken, steps[..|steps| - 1]);
    }
  }

  /** A reachable recording can be complete and have refused a submission: this run, for any record. */
  lemma CompleteThoughRefused(record: Record)
    ensures var r := Reach(1, 1, 1, false, Latecoming(record)); var s := record.stream;
            && r.Complete() && r.submitted(s) == 1 && r.written(s) == 0 && r.rejected(s) == 1
            && r.decidedAtFinish < |r.decisions|
  {
    hide Run, Create, Untouched, Reach, Inv;
    ReachIsRun(1, 1, 1, false, Latecoming(record));
    var r := Create(1, 1, 1, false);
    NewRecordingIsUntouched();
    EmptyRecordingCloses(r);
    var closed := [] + [Close] + [Take] + [SeeClosing];
    EmptyRecordingFinishes(r, closed);
    LatecomerIsRefused(r, closed + [FinishReturns(false)] + [Conclude], record);
  }

  // ---- failures are final

  lemma StepKeepsFailure(r: Recorder, step: Step)
    requires !r.failure.NoFailure?
    ensures Advance(r, step).failure == r.failure
  {
  }

  /** The first failure wins and stays: whatever happens later, the recording is never complete. */
  lemma {:induction false} FailureIsIrrevocable(r: Recorder, steps: seq<Step>)
    requires !r.failure.NoFailure?
    ensures Run(r, steps).failure == r.failure && !Run(r, steps).Complete()
  {
    if steps == [] {
    } else {
      FailureIsIrrevocable(r, steps[..|steps| - 1]);
      StepKeepsFailure(Run(r, steps[..|steps| - 1]), steps[|steps| - 1]);
    }
  }

  /** An owner that gave up waiting disqualifies the recording for good, even if the writer finishes later. */
  lemma TimeoutIsIrrevocable(r: Recorder, steps: seq<Step>)
    requires r.owner.Closing? && !r.shelf.done
    ensures !Run(Advance(r, TimeOut), steps).Complete()
  {
    FailureIsIrrevocable(Advance(r, TimeOut), steps);
  }

  /** The mutex-protected state respects its limits, and its byte count is exact until the writer is done. */
  lemma ResourcesAreBounded(byteLimit: nat, recordLimit: nat, producers: nat, slotTaken: bool, steps: seq<Step>)
    requires 0 < byteLimit && 0 < recordLimit
    ensures var r := Reach(byteLimit, recordLimit, producers, slotTaken, steps);
            && r.shelf.byteLimit == byteLimit && r.shelf.recordLimit == recordLimit
            && |r.shelf.queue| <= recordLimit && r.shelf.bytes <= byteLimit
            && (!r.shelf.done ==> r.shelf.bytes == TotalSize(r.shelf.queue))
            && (r.worker.Waiting? && r.shelf.queue != [] ==> Size(r.shelf.queue[0].chunks) <= r.shelf.bytes)
  {
    LimitsStay(byteLimit, recordLimit, producers, slotTaken, steps);
  }

  lemma StepKeepsLimits(r: Recorder, step: Step)
    ensures Advance(r, step).shelf.byteLimit == r.shelf.byteLimit
    ensures Advance(r, step).shelf.recordLimit == r.shelf.recordLimit
  {
    hide Produce, Write, Own;
    if step.ByProducer() {
      ProduceKeepsLimits(r, step);
    }
    WriteKeepsLimits(r, step);
    OwnKeepsLimits(r, step);
  }

  lemma ProduceKeepsLimits(r: Recorder, step: Step)
    requires step.ByProducer()
    ensures Produce(r, step).shelf.byteLimit == r.shelf.byteLimit
    ensures Produce(r, step).shelf.recordLimit == r.shelf.recordLimit
  {
    hide Size;
  }

  lemma WriteKeepsLimits(r: Recorder, step: Step)
    ensures Write(r, step).shelf.byteLimit == r.shelf.byteLimit
    ensures Write(r, step).shelf.recordLimit == r.shelf.recordLimit
  {
    hide Size;
  }

  lemma OwnKeepsLimits(r: Recorder, step: Step)
    ensures Own(r, step).shelf.byteLimit == r.shelf.byteLimit
    ensures Own(r, step).shelf.recordLimit == r.shelf.recordLimit
  {
  }

  lemma {:induction false} LimitsStay(byteLimit: nat, recordLimit: nat, producers: nat, slotTaken: bool,
                                      steps: seq<Step>)
    requires 0 < byteLimit && 0 < recordLimit
    ensures var r := Reach(byteLimit, recordLimit, producers, slotTaken, steps);
            r.shelf.byteLimit == byteLimit && r.shelf.recordLimit == recordLimit
  {
    if steps == [] {
    } else {
      LimitsStay(byteLimit, recordLimit, producers, slotTaken, steps[..|steps| - 1]);
      StepKeepsLimits(Reach(byteLimit, recordLimit, producers, slotTaken, steps[..|steps| - 1]), steps[|steps| - 1]);
    }
  }

  // ---- one writer in the whole process

  /** The slot is taken exactly while a writer lives, and there is never a second one. */
  ghost predicate OneWriter(p: Process) {
    && (forall i, j :: 0 <= i < j < |p.recorders| ==> !(Live(p.recorders[i]) && Live(p.recorders[j])))
    && (p.slot <==> exists i :: 0 <= i < |p.recorders| && Live(p.recorders[i]))
  }

  lemma LiveOnlyEnds(r: Recorder, step: Step)
    ensures Live(Advance(r, step)) <==> Live(r) && !(step.Release? && r.worker.Releasing?)
  {
  }

  lemma ConstructKeepsOneWriter(p: Process, r: Recorder)
    requires OneWriter(p) && (Live(r) <==> !p.slot)
    ensures OneWriter(Process(true, p.recorders + [r]))
  {
    var q := Process(true, p.recorders + [r]);
    if p.slot {
      var i :| 0 <= i < |p.recorders| && Live(p.recorders[i]);
      assert Live(q.recorders[i]);
    } else {
      assert Live(q.recorders[|p.recorders|]);
    }
  }

  /** A recorder moved: it stays live, or it was the one holding the slot and lets it go. */
  lemma MoveKeepsOneWriter(p: Process, i: nat, r: Recorder, released: bool)
    requires OneWriter(p) && i < |p.recorders|
    requires released ==> Live(p.recorders[i])
    requires Live(r) <==> Live(p.recorders[i]) && !released
    ensures OneWriter(Process(if released then false else p.slot, p.recorders[i := r]))
  {
    var q := Process(if released then false else p.slot, p.recorders[i := r]);
    if q.slot {
      var k :| 0 <= k < |p.recorders| && Live(p.recorders[k]);
      assert Live(q.recorders[k]);
    }
  }

  /**
   * At most one writer thread lives in the process, however recorders are constructed and closed, even
   * when earlier ones timed out.
   */
  lemma {:induction false} AtMostOneWriter(steps: seq<ProcessStep>)
    ensures OneWriter(RunProcess(steps))
  {
    if steps == [] {
    } else {
      var rest := steps[..|steps| - 1];
      AtMostOneWriter(rest);
      var p := RunProcess(rest);
      match steps[|steps| - 1] {
        case Construct(byteLimit, recordLimit, producers) =>
          ConstructKeepsOneWriter(p, Create(byteLimit, recordLimit, producers, p.slot));
        case On(i, step) =>
          if i < |p.recorders| {
            LiveOnlyEnds(p.recorders[i], step);
            MoveKeepsOneWriter(p, i, Advance(p.recorders[i], step), step.Release? && p.recorders[i].worker.Releasing?);
          }
      }
    }
  }

  /** Every recorder of the process, whenever it was constructed, is in a consistent state after any steps. */
  lemma {:induction false} EveryRecorderIsConsistent(steps: seq<ProcessStep>, i: nat)
    requires i < |RunProcess(steps).recorders|
    ensures Inv(RunProcess(steps).recorders[i])
  {
    hide Inv, Advance;
    if steps == [] {
    } else {
      var rest := steps[..|steps| - 1];
      var p := RunProcess(rest);
      if i < |p.recorders| {
        EveryRecorderIsConsistent(rest, i);
      }
      match steps[|steps| - 1] {
        case Construct(byteLimit, recordLimit, producers) =>
          if 0 < byteLimit && 0 < recordLimit {
            CreateHolds(byteLimit, recordLimit, producers, p.slot);
          }
        case On(k, step) =>
          if k == i && i < |p.recorders| {
            AdvanceKeeps(p.recorders[i], step);
          }
      }
    }
  }

  /**
   * Of the same runs of the whole process: one writer at most, every recorder honest about every stream,
   * and within its limits with an exact byte count until its writer is done.
   */
  lemma EveryRecorderIsHonest(steps: seq<ProcessStep>, i: nat, s: Stream)
    requires i < |RunProcess(steps).recorders|
    ensures OneWriter(RunProcess(steps)) && Honest(RunProcess(steps).recorders[i], s)
    ensures var shelf := RunProcess(steps).recorders[i].shelf;
            && |shelf.queue| <= shelf.recordLimit && shelf.bytes <= shelf.byteLimit
            && (!shelf.done ==> shelf.bytes == TotalSize(shelf.queue))
  {
    hide RunProcess, OneWriter, Honest;
    AtMostOneWriter(steps);
    EveryRecorderIsConsistent(steps, i);
    ConsistentIsHonest(RunProcess(steps).recorders[i], s);
  }
}
