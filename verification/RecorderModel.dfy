/** Every interleaving of a recorder's producers, writer and owner, and of all recorders in the process. */
module RecorderModel {
  import opened Recorders

  /** Where a producer stands inside `submit`; Rejecting still has to count the rejection. */
  datatype Producer = Idle | Submitted(record: Record) | Sizing(record: Record) | Deciding(record: Record)
                    | Rejecting(record: Record)

  datatype Worker =
    | Absent                    // the slot was taken: this recorder never had a writer
    | Waiting
    | Holding(record: Record)   // popped, being written
    | Counting(record: Record)  // written, not yet counted
    | Failing                   // the sink threw
    | Draining                  // waiting for the owner to close
    | Finishing                 // inside the sink's finish
    | FinishFailing             // finish threw
    | Completing
    | Releasing                 // done, the slot still taken
    | Exited

  datatype Owner = Open | Closing | Closed

  datatype Decision = Decision(record: Record, accepted: bool)

  /** What the sink's finish did, as far as it got. */
  datatype Ending = Unfinished | EndedWell | EndedBadly | EndThrew

  /** Counts per stream. */
  type Tally = Stream -> nat

  function Bump(t: Tally, s: Stream): Tally {
    x => if x == s then t(x) + 1 else t(x)
  }

  /**
   * One recorder. The last group is history: the decisions of `submit` in the order they were taken, the
   * records the sink wrote, those it lost, whether it threw, how its finish ended, and how many decisions
   * preceded the finish.
   */
  datatype Recorder = Recorder(
    shelf: Shelf,
    failure: Failure,
    finished: bool,
    submitted: Tally,
    written: Tally,
    rejected: Tally,
    producers: seq<Producer>,
    worker: Worker,
    owner: Owner,
    decisions: seq<Decision>,
    writes: seq<Record>,
    lost: seq<Record>,
    threw: bool,
    ending: Ending,
    decidedAtFinish: nat)
  {
    predicate Active() {
      failure.NoFailure? && !finished
    }

    predicate Complete() {
      finished && failure.NoFailure?
    }
  }

  /** The first failure wins. */
  function Fail(r: Recorder, failure: Failure): Recorder {
    if r.failure.NoFailure? then r.(failure := failure) else r
  }

  const NONE: Tally := (_: Stream) => 0

  /** The constructor: a writer is started only if no other recorder of the process has one. */
  function Create(byteLimit: nat, recordLimit: nat, producers: nat, slotTaken: bool): Recorder {
    var shelf := Shelf(byteLimit, recordLimit, [], 0, false, slotTaken);
    Recorder(shelf, if slotTaken then WriterBusy else NoFailure, slotTaken, NONE, NONE, NONE,
             seq(producers, _ => Idle), if slotTaken then Absent else Waiting,
             if slotTaken then Closed else Open, [], [], [], false, Unfinished, 0)
  }

  datatype Step =
    // a producer's calls, in the order of submit
    | Submit(p: nat, record: Record)
    | CheckActive(p: nat)
    | CheckSize(p: nat)
    | Decide(p: nat)
    | CountRejection(p: nat)
    // the writer
    | Take
    | WriteReturns
    | WriteThrows
    | CountWrite
    | NoteWriteFailure
    | SeeClosing
    | FinishReturns(bad: bool)
    | FinishThrows
    | NoteFinishFailure
    | Conclude
    | Release
    // the owner
    | Close
    | SeeDone
    | TimeOut
  {
    predicate ByProducer() {
      Submit? || CheckActive? || CheckSize? || Decide? || CountRejection?
    }
  }

  function SetProducer(r: Recorder, p: nat, to: Producer): Recorder
    requires p < |r.producers|
  {
    r.(producers := r.producers[p := to])
  }

  /** The producer's submission is refused; counting that is its next step. */
  function Refuse(r: Recorder, p: nat, record: Record): Recorder
    requires p < |r.producers|
  {
    SetProducer(r, p, Rejecting(record)).(decisions := r.decisions + [Decision(record, false)])
  }

  /** A producer's step; a step whose turn it is not changes nothing. */
  function Produce(r: Recorder, step: Step): Recorder
    requires step.ByProducer()
  {
    if step.p >= |r.producers| then r
    else match (step, r.producers[step.p])
      case (Submit(p, record), Idle) =>
        SetProducer(r, p, Submitted(record)).(submitted := Bump(r.submitted, record.stream))
      case (CheckActive(p), Submitted(record)) =>
        if r.Active() then SetProducer(r, p, Sizing(record)) else Refuse(r, p, record)
      case (CheckSize(p), Sizing(record)) =>
        if Size(record.chunks) <= r.shelf.byteLimit then SetProducer(r, p, Deciding(record))
        else Refuse(Fail(r, Backlog), p, record)
      case (Decide(p), Deciding(record)) =>
        if !r.Active() then Refuse(r, p, record)
        else if r.shelf.bytes > r.shelf.byteLimit || !r.shelf.Admits(Size(record.chunks))
        then Refuse(Fail(r, Backlog), p, record)
        else SetProducer(r, p, Idle).(shelf := r.shelf.Put(record),
                                      decisions := r.decisions + [Decision(record, true)])
      case (CountRejection(p), Rejecting(record)) =>
        SetProducer(r, p, Idle).(rejected := Bump(r.rejected, record.stream))
      case _ => r
  }

  function Write(r: Recorder, step: Step): Recorder {
    match (step, r.worker)
    case (Take, Waiting) =>
      if r.shelf.queue == [] then
        if r.shelf.closing then r.(worker := Draining) else r
      else if Size(r.shelf.queue[0].chunks) <= r.shelf.bytes then
        r.(worker := Holding(r.shelf.queue[0]), shelf := r.shelf.Take())
      else r
    case (WriteReturns, Holding(record)) => r.(worker := Counting(record), writes := r.writes + [record])
    case (WriteThrows, Holding(record)) => r.(worker := Failing, lost := r.lost + [record], threw := true)
    case (CountWrite, Counting(record)) => r.(worker := Waiting, written := Bump(r.written, record.stream))
    case (NoteWriteFailure, Failing) => Fail(r, Storage).(worker := Draining)
    case (SeeClosing, Draining) => if r.shelf.closing then r.(worker := Finishing) else r
    case (FinishReturns(bad), Finishing) =>
      (if bad then Fail(r, Storage) else r).(worker := Completing, ending := if bad then EndedBadly else EndedWell)
    case (FinishThrows, Finishing) => r.(worker := FinishFailing, ending := EndThrew)
    case (NoteFinishFailure, FinishFailing) => Fail(r, Storage).(worker := Completing)
    case (Conclude, Completing) =>
      r.(worker := Releasing, lost := r.lost + r.shelf.queue, shelf := r.shelf.Clear(), finished := true,
         decidedAtFinish := |r.decisions|)
    case (Release, Releasing) => r.(worker := Exited)
    case _ => r
  }

  function Own(r: Recorder, step: Step): Recorder {
    match (step, r.owner)
    case (Close, Open) => r.(owner := Closing, shelf := r.shelf.(closing := true))
    case (SeeDone, Closing) => if r.shelf.done then r.(owner := Closed) else r
    case (TimeOut, Closing) => if r.shelf.done then r else Fail(r, ShutdownTimeout).(owner := Closed)
    case _ => r
  }

  function Advance(r: Recorder, step: Step): Recorder {
    if step.ByProducer() then Produce(r, step)
    else if step.Close? || step.SeeDone? || step.TimeOut? then Own(r, step)
    else Write(r, step)
  }

  function Run(r: Recorder, steps: seq<Step>): Recorder {
    if steps == [] then r else Advance(Run(r, steps[..|steps| - 1]), steps[|steps| - 1])
  }

  // ---- all recorders of the process

  /** The process-wide slot, and every recorder constructed so far. */
  datatype Process = Process(slot: bool, recorders: seq<Recorder>)

  datatype ProcessStep =
    | Construct(byteLimit: nat, recordLimit: nat, producers: nat)
    | On(i: nat, step: Step)

  predicate Live(r: Recorder) {
    !r.worker.Absent? && !r.worker.Exited?
  }

  function AdvanceProcess(p: Process, step: ProcessStep): Process {
    match step
    case Construct(byteLimit, recordLimit, producers) =>
      if byteLimit == 0 || recordLimit == 0 then p
      else Process(true, p.recorders + [Create(byteLimit, recordLimit, producers, p.slot)])
    case On(i, s) =>
      if i >= |p.recorders| then p
      else Process(if s.Release? && p.recorders[i].worker.Releasing? then false else p.slot,
                   p.recorders[i := Advance(p.recorders[i], s)])
  }

  function RunProcess(steps: seq<ProcessStep>): Process {
    if steps == [] then Process(false, [])
    else AdvanceProcess(RunProcess(steps[..|steps| - 1]), steps[|steps| - 1])
  }
}
