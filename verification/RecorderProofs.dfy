/** What a recorder keeps under every interleaving. */
module RecorderProofs {
  import opened Recorders
  import opened RecorderModel

  // ---- counting

  function Count(records: seq<Record>, s: Stream): nat {
    if records == [] then 0
    else Count(records[..|records| - 1], s) + if records[|records| - 1].stream == s then 1 else 0
  }

  lemma CountSnoc(records: seq<Record>, record: Record, s: Stream)
    ensures Count(records + [record], s) == Count(records, s) + if record.stream == s then 1 else 0
  {
    assert (records + [record])[..|records|] == records;
  }

  lemma {:induction false} CountConcat(a: seq<Record>, b: seq<Record>, s: Stream)
    ensures Count(a + b, s) == Count(a, s) + Count(b, s)
  {
    if b == [] {
      assert a + b == a;
    } else {
      assert (a + b)[..|a + b| - 1] == a + b[..|b| - 1];
      CountConcat(a, b[..|b| - 1], s);
    }
  }

  /** The records decided one way, in the order of the decisions. */
  function Decided(decisions: seq<Decision>, accepted: bool): seq<Record> {
    if decisions == [] then []
    else
      var last := decisions[|decisions| - 1];
      Decided(decisions[..|decisions| - 1], accepted) + if last.accepted == accepted then [last.record] else []
  }

  lemma DecidedSnoc(decisions: seq<Decision>, d: Decision, accepted: bool)
    ensures Decided(decisions + [d], accepted)
            == if d.accepted == accepted then Decided(decisions, accepted) + [d.record]
               else Decided(decisions, accepted)
  {
    assert (decisions + [d])[..|decisions|] == decisions;
  }

  /** What producers have in hand: 0 while undecided, or 1 while only the rejection is uncounted. */
  function Weigh(p: Producer, s: Stream, rejecting: bool): nat {
    if p.Idle? || p.record.stream != s || p.Rejecting? != rejecting then 0 else 1
  }

  function InHand(producers: seq<Producer>, s: Stream, rejecting: bool): nat {
    if producers == [] then 0
    else InHand(producers[..|producers| - 1], s, rejecting) + Weigh(producers[|producers| - 1], s, rejecting)
  }

  lemma {:induction false} InHandUpdate(producers: seq<Producer>, p: nat, to: Producer, s: Stream, rejecting: bool)
    requires p < |producers|
    ensures InHand(producers[p := to], s, rejecting) + Weigh(producers[p], s, rejecting)
            == InHand(producers, s, rejecting) + Weigh(to, s, rejecting)
  {
    var n := |producers| - 1;
    if p == n {
      assert producers[p := to][..n] == producers[..n];
    } else {
      assert producers[p := to][..n] == producers[..n][p := to];
      InHandUpdate(producers[..n], p, to, s, rejecting);
    }
  }

  // ---- the invariant

  function InFlight(w: Worker): seq<Record> {
    match w
    case Holding(record) => [record]
    case _ => []
  }

  /** Every accepted record is written, being written, lost, or queued, in exactly that order. */
  ghost predicate Ordered(r: Recorder) {
    Decided(r.decisions, true) == r.writes + InFlight(r.worker) + r.lost + r.shelf.queue
  }

  /** Refusals come last: once one record is refused, none is accepted. */
  ghost predicate Prefixed(r: Recorder) {
    && (forall i, j :: 0 <= i < j < |r.decisions| && !r.decisions[i].accepted ==> !r.decisions[j].accepted)
    && (r.Active() ==> forall i :: 0 <= i < |r.decisions| ==> r.decisions[i].accepted)
  }

  ghost predicate Tallied(r: Recorder, s: Stream) {
    && r.submitted(s) == Count(Decided(r.decisions, true), s) + Count(Decided(r.decisions, false), s)
                         + InHand(r.producers, s, false)
    && Count(Decided(r.decisions, false), s) == r.rejected(s) + InHand(r.producers, s, true)
    && Count(r.writes, s) == r.written(s) + if r.worker.Counting? && r.worker.record.stream == s then 1 else 0
  }

  /** What the writer's place in its life says about failures, losses, closing and the sink's finish. */
  ghost predicate Staged(r: Recorder) {
    match r.worker
    case Absent =>
      r.finished && r.failure.WriterBusy? && r.lost == [] && !r.threw && r.owner.Closed? && r.ending.Unfinished?
    case Waiting => Writing(r)
    case Holding(_) => Writing(r)
    case Counting(_) => Writing(r)
    case Failing => !r.finished && r.threw && r.ending.Unfinished?
    case Draining => !r.finished && Settled(r) && r.ending.Unfinished?
    case Finishing => !r.finished && Settled(r) && r.shelf.closing && r.ending.Unfinished?
    case FinishFailing => !r.finished && Settled(r) && r.shelf.closing && r.ending.EndThrew?
    case Completing => !r.finished && Settled(r) && r.shelf.closing && EndingNoted(r)
    case Releasing => r.finished && Settled(r) && r.shelf.closing && EndingNoted(r)
    case Exited => r.finished && Settled(r) && r.shelf.closing && EndingNoted(r)
  }

  ghost predicate Writing(r: Recorder) {
    !r.finished && r.lost == [] && !r.threw && r.ending.Unfinished?
  }

  /** The sink's finish is over, and unless it ended well a failure is recorded. */
  ghost predicate EndingNoted(r: Recorder) {
    r.ending.EndedWell? || (!r.ending.Unfinished? && !r.failure.NoFailure?)
  }

  /** The writer left its loop for a recorded failure, or with nothing left to come. */
  ghost predicate Settled(r: Recorder) {
    if r.threw then !r.failure.NoFailure? else r.lost == [] && r.shelf.closing && r.shelf.queue == []
  }

  ghost predicate Concluded(r: Recorder) {
    && (r.shelf.closing <==> !r.owner.Open? && !r.worker.Absent?)
    && (r.owner.Closed? ==> r.finished || !r.failure.NoFailure?)
    && r.decidedAtFinish <= |r.decisions|
    && (r.Complete() ==> forall i :: 0 <= i < |r.decisions| ==> (r.decisions[i].accepted <==> i < r.decidedAtFinish))
  }

  ghost predicate Consistent(r: Recorder) {
    && r.shelf.Valid() && Ordered(r) && Prefixed(r) && Staged(r) && Concluded(r)
    && forall s :: Tallied(r, s)
  }

  /** The shelf is cleared for good in the very section that finishes the recorder. */
  ghost predicate Inv(r: Recorder) {
    match r.finished
    case true => Consistent(r) && r.shelf.done
    case false => Consistent(r) && !r.shelf.done
  }

  // ---- one step at a time

  /** Nothing decided: the record only moves on inside `submit`. */
  lemma MoveOn(r: Recorder, t: Recorder, p: nat, to: Producer)
    requires Inv(r) && p < |r.producers|
    requires t == r.(producers := r.producers[p := to], submitted := t.submitted, rejected := t.rejected)
    requires forall s ::
               && t.submitted(s) + Weigh(r.producers[p], s, false) == r.submitted(s) + Weigh(to, s, false)
               && t.rejected(s) + Weigh(to, s, true) == r.rejected(s) + Weigh(r.producers[p], s, true)
    ensures Inv(t)
  {
    forall s
      ensures Tallied(t, s)
    {
      assert Tallied(r, s);
      InHandUpdate(r.producers, p, to, s, false);
      InHandUpdate(r.producers, p, to, s, true);
    }
  }

  lemma CountDecision(decisions: seq<Decision>, d: Decision, s: Stream, accepted: bool)
    ensures Count(Decided(decisions + [d], accepted), s)
            == Count(Decided(decisions, accepted), s) + if d.accepted == accepted && d.record.stream == s then 1 else 0
  {
    DecidedSnoc(decisions, d, accepted);
    CountSnoc(Decided(decisions, accepted), d.record, s);
  }

  /** The producer is inside `submit` with this record. */
  predicate Undecided(p: Producer, record: Record) {
    match p
    case Submitted(held) => held == record
    case Sizing(held) => held == record
    case Deciding(held) => held == record
    case _ => false
  }

  lemma UndecidedWeighs(p: Producer, record: Record, s: Stream)
    requires Undecided(p, record)
    ensures Weigh(p, s, true) == 0 && Weigh(p, s, false) == if record.stream == s then 1 else 0
  {
  }

  /** A decision and the producer's move that goes with it keep the counts of one stream. */
  lemma DecisionKeepsTally(r: Recorder, t: Recorder, p: nat, d: Decision, s: Stream)
    requires Tallied(r, s) && p < |r.producers|
    requires Undecided(r.producers[p], d.record)
    requires t.producers == r.producers[p := if d.accepted then Idle else Rejecting(d.record)]
    requires t.decisions == r.decisions + [d]
    requires t.submitted == r.submitted && t.written == r.written && t.rejected == r.rejected
    requires t.writes == r.writes && t.worker == r.worker
    ensures Tallied(t, s)
  {
    hide Count, Decided, InHand;
    var to := t.producers[p];
    var one := if d.record.stream == s then 1 else 0;
    UndecidedWeighs(r.producers[p], d.record, s);
    assert Weigh(to, s, false) == 0 && Weigh(to, s, true) == if d.accepted then 0 else one;
    InHandUpdate(r.producers, p, to, s, false);
    InHandUpdate(r.producers, p, to, s, true);
    CountDecision(r.decisions, d, s, true);
    CountDecision(r.decisions, d, s, false);
  }

  /** A record is refused, for a failure that is (or just became) known or because the recorder finished. */
  lemma RefuseKeeps(r: Recorder, failure: Failure, p: nat, record: Record)
    requires Inv(r) && p < |r.producers|
    requires Undecided(r.producers[p], record)
    requires r.failure.NoFailure? || failure == r.failure
    requires !failure.NoFailure? || r.finished
    ensures Inv(Refuse(r.(failure := failure), p, record))
  {
    hide Count, Decided, InHand, Size, TotalSize;
    var d := Decision(record, false);
    DecidedSnoc(r.decisions, d, true);
    var t := Refuse(r.(failure := failure), p, record);
    forall s
      ensures Tallied(t, s)
    {
      assert Tallied(r, s);
      DecisionKeepsTally(r, t, p, d, s);
    }
  }

  lemma AdmitKeeps(r: Recorder, p: nat, record: Record)
    requires Inv(r) && p < |r.producers| && r.producers[p] == Deciding(record) && r.Active()
    requires r.shelf.Admits(Size(record.chunks))
    ensures Inv(SetProducer(r, p, Idle).(shelf := r.shelf.Put(record),
                                         decisions := r.decisions + [Decision(record, true)]))
  {
    hide Count, Decided, InHand, Size, TotalSize;
    var d := Decision(record, true);
    DecidedSnoc(r.decisions, d, true);
    TotalSizeAppend(r.shelf.queue, record);
    var t := SetProducer(r, p, Idle).(shelf := r.shelf.Put(record), decisions := r.decisions + [d]);
    forall s
      ensures Tallied(t, s)
    {
      assert Tallied(r, s);
      DecisionKeepsTally(r, t, p, d, s);
    }
  }

  lemma DecideKeeps(r: Recorder, p: nat)
    requires Inv(r) && p < |r.producers| && r.producers[p].Deciding?
    ensures Inv(Produce(r, Decide(p)))
  {
    var record := r.producers[p].record;
    if !r.Active() {
      RefuseKeeps(r, r.failure, p, record);
    } else if !r.shelf.Admits(Size(record.chunks)) {
      RefuseKeeps(r, Backlog, p, record);
    } else {
      AdmitKeeps(r, p, record);
    }
  }

  lemma CheckKeeps(r: Recorder, p: nat)
    requires Inv(r) && p < |r.producers|
    ensures r.producers[p].Submitted? ==> Inv(Produce(r, CheckActive(p)))
    ensures r.producers[p].Sizing? ==> Inv(Produce(r, CheckSize(p)))
  {
    hide Inv, Size;
    if r.producers[p].Submitted? {
      var record := r.producers[p].record;
      if r.Active() {
        MoveOn(r, Produce(r, CheckActive(p)), p, Sizing(record));
      } else {
        RefuseKeeps(r, r.failure, p, record);
      }
    } else if r.producers[p].Sizing? {
      var record := r.producers[p].record;
      if Size(record.chunks) <= r.shelf.byteLimit {
        MoveOn(r, Produce(r, CheckSize(p)), p, Deciding(record));
      } else {
        RefuseKeeps(r, Fail(r, Backlog).failure, p, record);
      }
    }
  }

  lemma ProduceKeeps(r: Recorder, step: Step)
    requires step.ByProducer() && Inv(r)
    ensures Inv(Produce(r, step))
  {
    if step.p < |r.producers| {
      match (step, r.producers[step.p]) {
        case (Submit(p, record), Idle) => MoveOn(r, Produce(r, step), p, Submitted(record));
        case (CheckActive(p), Submitted(_)) => CheckKeeps(r, p);
        case (CheckSize(p), Sizing(_)) => CheckKeeps(r, p);
        case (Decide(p), Deciding(_)) => DecideKeeps(r, p);
        case (CountRejection(p), Rejecting(_)) => MoveOn(r, Produce(r, step), p, Idle);
        case _ =>
      }
    }
  }

  /** The writer's or owner's step left all counts of producers and writes as they were. */
  lemma TalliesStay(r: Recorder, t: Recorder)
    requires Consistent(r)
    requires t.submitted == r.submitted && t.written == r.written && t.rejected == r.rejected
    requires t.producers == r.producers && t.decisions == r.decisions && t.writes == r.writes
    requires (!t.worker.Counting? && !r.worker.Counting?) || t.worker == r.worker
    ensures forall s :: Tallied(t, s)
  {
    forall s
      ensures Tallied(t, s)
    {
      assert Tallied(r, s);
    }
  }

  lemma TakeKeeps(r: Recorder)
    requires Inv(r) && r.worker.Waiting?
    ensures Inv(Write(r, Take))
  {
    TalliesStay(r, Write(r, Take));
  }

  lemma WriteReturnKeeps(r: Recorder)
    requires Inv(r) && r.worker.Holding?
    ensures Inv(Write(r, WriteReturns))
  {
    var t := Write(r, WriteReturns);
    forall s
      ensures Tallied(t, s)
    {
      assert Tallied(r, s);
      CountSnoc(r.writes, r.worker.record, s);
    }
  }

  lemma CountWriteKeeps(r: Recorder)
    requires Inv(r) && r.worker.Counting?
    ensures Inv(Write(r, CountWrite))
  {
    hide Count, Decided, InHand, Size, TotalSize;
    var t := Write(r, CountWrite);
    assert t == r.(worker := Waiting, written := t.written);
    forall s
      ensures Tallied(t, s)
    {
      assert Tallied(r, s);
      assert t.written(s) == r.written(s) + if r.worker.record.stream == s then 1 else 0;
    }
  }

  lemma ConcludeKeeps(r: Recorder)
    requires Inv(r) && r.worker.Completing?
    ensures Inv(Write(r, Conclude))
  {
    var t := Write(r, Conclude);
    TalliesStay(r, t);
    assert r.writes + InFlight(r.worker) + r.lost + r.shelf.queue == t.writes + InFlight(t.worker) + t.lost + t.shelf.queue;
  }

  lemma WriteThrowKeeps(r: Recorder)
    requires Inv(r) && r.worker.Holding?
    ensures Inv(Write(r, WriteThrows))
  {
    TalliesStay(r, Write(r, WriteThrows));
  }

  /** The remaining steps of the writer only move it along, perhaps noting a failure. */
  lemma PassKeeps(r: Recorder, step: Step)
    requires Inv(r)
    requires step.NoteWriteFailure? || step.SeeClosing? || step.FinishReturns? || step.FinishThrows?
             || step.NoteFinishFailure? || step.Release?
    ensures Inv(Write(r, step))
  {
    TalliesStay(r, Write(r, step));
    hide Tallied, Decided, Size, TotalSize;
  }

  lemma WriteKeeps(r: Recorder, step: Step)
    requires Inv(r)
    ensures Inv(Write(r, step))
  {
    hide Inv;
    match (step, r.worker) {
      case (Take, Waiting) => TakeKeeps(r);
      case (WriteReturns, Holding(_)) => WriteReturnKeeps(r);
      case (CountWrite, Counting(_)) => CountWriteKeeps(r);
      case (Conclude, Completing) => ConcludeKeeps(r);
      case (WriteThrows, Holding(_)) => WriteThrowKeeps(r);
      case (NoteWriteFailure, _) => PassKeeps(r, step);
      case (SeeClosing, _) => PassKeeps(r, step);
      case (FinishReturns(_), _) => PassKeeps(r, step);
      case (FinishThrows, _) => PassKeeps(r, step);
      case (NoteFinishFailure, _) => PassKeeps(r, step);
      case (Release, _) => PassKeeps(r, step);
      case _ =>
    }
  }

  lemma OwnKeeps(r: Recorder, step: Step)
    requires Inv(r)
    ensures Inv(Own(r, step))
  {
    TalliesStay(r, Own(r, step));
  }

  lemma AdvanceKeeps(r: Recorder, step: Step)
    requires Inv(r)
    ensures Inv(Advance(r, step))
  {
    if step.ByProducer() {
      ProduceKeeps(r, step);
    } else if step.Close? || step.SeeDone? || step.TimeOut? {
      OwnKeeps(r, step);
    } else {
      WriteKeeps(r, step);
    }
  }

  lemma CreateHolds(byteLimit: nat, recordLimit: nat, producers: nat, slotTaken: bool)
    requires 0 < byteLimit && 0 < recordLimit
    ensures Inv(Create(byteLimit, recordLimit, producers, slotTaken))
  {
    forall s
      ensures Tallied(Create(byteLimit, recordLimit, producers, slotTaken), s)
    {
      AllIdle(producers, s, false);
      AllIdle(producers, s, true);
    }
  }

  lemma {:induction false} AllIdle(producers: nat, s: Stream, rejecting: bool)
    ensures InHand(seq(producers, _ => Idle), s, rejecting) == 0
  {
    if producers == 0 {
    } else {
      assert seq(producers, _ => Idle)[..producers - 1] == seq(producers - 1, _ => Idle);
      AllIdle(producers - 1, s, rejecting);
    }
  }
}
