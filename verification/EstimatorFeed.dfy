/**
 * How camera frames and IMU rows reach the estimator (src/openvins_runner/sensor_runner.cpp): the
 * camera thread's bounded queue, the IMU thread's queue, and the update thread that feeds both. Each
 * step is one locked section or one call into the estimator, and steps of the three threads interleave
 * freely.
 */
module EstimatorFeeds {
  import opened Basics
  import ImuLowPasses
  import opened ImuPairings

  /** A frame, the time it was exposed, and its number in the capture. */
  datatype Captured<F> = Captured(frame: F, t: Time, index: int)

  /** Where the update thread is. */
  datatype Phase<F> =
    | Waiting
    | Feeding(samples: seq<Row>)
    | Choosing
    | Updating(chosen: Captured<F>)
    | Finished(waited: Time)

  /** `offering` is the frame the camera thread has counted but not yet queued. */
  datatype Feed<F> = Feed(
    camQ: seq<Captured<F>>,
    imuQ: seq<Row>,
    framesDone: bool,
    stop: bool,
    offering: Option<Captured<F>>,
    framesIn: nat,
    processed: nat,
    dropped: nat,
    lastImu: Time,
    offset: real,
    stallSince: Time,
    phase: Phase<F>)
  {
    /** The IMU has passed the front frame's time plus the current camera/IMU offset, in nanoseconds. */
    predicate Ready() {
      camQ != [] && camQ[0].t as real < lastImu as real - offset
    }
  }

  const MAX_IMU := 1024

  const MAX_STALL: Time := 1_000_000_000

  datatype Step<F> =
    | Arrive(row: Row)
    | Capture(frame: F, t: Time)
    | Enqueue
    | EndFrames
    | StopCapture
    | Take
    | FeedOne
    | Choose(now: Time, later: Time)
    | Update(refined: real)

  /** The newest frames that leave room for one more. */
  function Newest<F>(q: seq<Captured<F>>, limit: nat): seq<Captured<F>>
    requires limit > 0
  {
    if |q| >= limit then q[|q| - limit + 1..] else q
  }

  /** One step; a step whose thread is not there does nothing. */
  function Next<F>(f: Feed<F>, limit: nat, s: Step<F>): Feed<F>
    requires limit > 0
  {
    match s
    case Arrive(row) =>
      if |f.imuQ| >= MAX_IMU then f.(stop := true) else f.(imuQ := f.imuQ + [row])
    case Capture(frame, t) =>
      if f.offering.Some? || f.framesDone then f
      else f.(offering := Some(Captured(frame, t, f.framesIn)), framesIn := f.framesIn + 1)
    case Enqueue =>
      if f.offering.None? then f
      else
        var room := Newest(f.camQ, limit);
        f.(camQ := room + [f.offering.value], dropped := f.dropped + (|f.camQ| - |room|), offering := None)
    case EndFrames => if f.offering.Some? then f else f.(framesDone := true)
    case StopCapture => f.(stop := true)
    case Take =>
      if !f.phase.Waiting? then f
      else if f.stop then f.(phase := Finished(0))
      else f.(phase := Feeding(f.imuQ), imuQ := [])
    case FeedOne =>
      if !f.phase.Feeding? then f
      else if f.phase.samples == [] then f.(phase := Choosing)
      else f.(lastImu := f.phase.samples[0].t, phase := Feeding(f.phase.samples[1..]))
    case Choose(now, later) =>
      if !f.phase.Choosing? then f
      else if f.stop then f.(phase := Finished(0))
      else if f.Ready() then f.(phase := Updating(f.camQ[0]), camQ := f.camQ[1..])
      else if !f.framesDone then f.(phase := Waiting)
      else if f.camQ == [] then f.(phase := Finished(0))
      else
        var since := if f.stallSince == 0 then now else f.stallSince;
        f.(stallSince := since, phase := if later - since > MAX_STALL then Finished(later - since) else Waiting)
    case Update(refined) =>
      if !f.phase.Updating? then f
      else f.(processed := f.processed + 1, offset := refined, phase := Waiting)
  }

  /** The dropping loop: only the oldest frames are gone, they are counted, and no more than needed. */
  ghost predicate Dropping<F>(was: seq<Captured<F>>, count: nat, now: seq<Captured<F>>, dropped: nat, limit: nat) {
    && |now| <= |was| && now == was[|was| - |now|..] && dropped + |now| == count + |was|
    && (|now| == |was| || |now| >= limit - 1)
  }

  lemma DroppingStarts<F>(was: seq<Captured<F>>, count: nat, limit: nat)
    ensures Dropping(was, count, was, count, limit)
  {
  }

  lemma DroppingGoesOn<F>(was: seq<Captured<F>>, count: nat, now: seq<Captured<F>>, dropped: nat, limit: nat)
    requires limit > 0 && Dropping(was, count, now, dropped, limit) && |now| >= limit
    ensures Dropping(was, count, now[1..], dropped + 1, limit)
  {
    var k := |was| - |now|;
    assert was[k..][1..] == was[k + 1..];
  }

  lemma DroppingEnds<F>(was: seq<Captured<F>>, count: nat, now: seq<Captured<F>>, dropped: nat, limit: nat)
    requires limit > 0 && Dropping(was, count, now, dropped, limit) && |now| < limit
    ensures now == Newest(was, limit) && dropped == count + (|was| - |now|)
  {
    if |was| < limit {
      assert was[0..] == was;
    }
  }

  lemma EnqueueOutcome<F>(f: Feed<F>, limit: nat)
    requires limit > 0
    ensures Next(f, limit, Enqueue)
            == if f.offering.None? then f
               else var room := Newest(f.camQ, limit);
                    f.(camQ := room + [f.offering.value], dropped := f.dropped + (|f.camQ| - |room|), offering := None)
  {
  }

  /** The state the three threads share; a method is one of their locked sections or loops. */
  class EstimatorFeed<F> {
    const limit: nat
    var camQ: seq<Captured<F>>
    var imuQ: seq<Row>
    var framesDone: bool
    var stop: bool
    var offering: Option<Captured<F>>
    var framesIn: nat
    var processed: nat
    var dropped: nat
    var lastImu: Time
    var offset: real
    var stallSince: Time
    var phase: Phase<F>

    ghost function View(): Feed<F>
      reads this
    {
      Feed(camQ, imuQ, framesDone, stop, offering, framesIn, processed, dropped, lastImu, offset, stallSince, phase)
    }

    constructor (limit: nat, offset: real)
      requires limit > 0
      ensures View() == Started(offset) && this.limit == limit
    {
      this.limit := limit;
      camQ, imuQ, framesDone, stop, offering := [], [], false, false, None;
      framesIn, processed, dropped, lastImu := 0, 0, 0, 0;
      this.offset, stallSince, phase := offset, 0, Waiting;
    }

    /** The IMU thread's push; a full queue ends the capture. */
    method PushSample(row: Row) returns (ok: bool)
      requires limit > 0
      modifies this
      ensures View() == old(Next(View(), limit, Arrive(row)))
      ensures ok == (old(|imuQ|) < MAX_IMU)
    {
      if |imuQ| >= MAX_IMU {
        stop := true;
        return false;
      }
      imuQ := imuQ + [row];
      return true;
    }

    /** `enqueue_frame`, its locked part. */
    method EnqueueFrame()
      requires limit > 0
      modifies this
      ensures View() == old(Next(View(), limit, Enqueue))
    {
      hide Next, Newest, Dropping;
      EnqueueOutcome(View(), limit);
      if offering.None? {
        return;
      }
      ghost var was := camQ;
      ghost var count := dropped;
      DroppingStarts(was, count, limit);
      while |camQ| >= limit
        invariant Dropping(was, count, camQ, dropped, limit)
        modifies `camQ, `dropped
      {
        DroppingGoesOn(was, count, camQ, dropped, limit);
        camQ := camQ[1..];
        dropped := dropped + 1;
      }
      DroppingEnds(was, count, camQ, dropped, limit);
      camQ := camQ + [offering.value];
      offering := None;
    }

    /** The update thread moves the queued samples out and feeds them in order. */
    method FeedSamples() returns (fed: seq<Row>)
      requires limit > 0 && phase.Waiting?
      modifies this
      ensures old(stop) ==> fed == [] && View() == old(Next(View(), limit, Take))
      ensures !old(stop) ==> fed == old(imuQ) && View() == old(View()).(
                imuQ := [], lastImu := if fed == [] then old(lastImu) else fed[|fed| - 1].t, phase := Choosing)
    {
      fed := [];
      if stop {
        phase := Finished(0);
        return;
      }
      var samples := imuQ;
      imuQ := [];
      while |fed| < |samples|
        invariant |fed| <= |samples| && fed == samples[..|fed|]
        invariant lastImu == if fed == [] then old(lastImu) else fed[|fed| - 1].t
        modifies `lastImu
      {
        lastImu := samples[|fed|].t;
        fed := fed + [samples[|fed|]];
      }
      phase := Choosing;
    }

    /** The update thread's choice of its next frame. */
    method ChooseFrame(now: Time, later: Time) returns (chosen: Option<Captured<F>>)
      requires limit > 0 && phase.Choosing?
      modifies this
      ensures View() == old(Next(View(), limit, Choose(now, later)))
      ensures chosen == (if phase.Updating? then Some(phase.chosen) else None)
    {
      if stop {
        phase := Finished(0);
        return None;
      }
      if !(camQ != [] && camQ[0].t as real < lastImu as real - offset) {
        if !framesDone {
          phase := Waiting;
          return None;
        }
        if camQ == [] {
          phase := Finished(0);
          return None;
        }
        if stallSince == 0 {
          stallSince := now;
        }
        if later - stallSince > MAX_STALL {
          phase := Finished(later - stallSince);
        } else {
          phase := Waiting;
        }
        return None;
      }
      chosen := Some(camQ[0]);
      phase := Updating(camQ[0]);
      camQ := camQ[1..];
    }

    /** After the estimator has processed the frame. */
    method FinishUpdate(refined: real)
      requires limit > 0 && phase.Updating?
      modifies this
      ensures View() == old(Next(View(), limit, Update(refined)))
    {
      processed := processed + 1;
      offset := refined;
      phase := Waiting;
    }
  }

  function Started<F>(offset: real): Feed<F> {
    Feed([], [], false, false, None, 0, 0, 0, 0, offset, 0, Waiting)
  }

  /** The update thread's own loop is the steps of the model: take, feed each sample, go on to choose. */
  function FeedAll<F>(f: Feed<F>, limit: nat, n: nat): Feed<F>
    requires limit > 0
    decreases n
  {
    if n == 0 then f else FeedAll(Next(f, limit, FeedOne), limit, n - 1)
  }

  lemma {:induction false} FeedingIsSteps<F>(f: Feed<F>, limit: nat)
    requires limit > 0 && f.phase.Feeding?
    ensures var all := f.phase.samples;
            FeedAll(f, limit, |all| + 1)
            == f.(lastImu := if all == [] then f.lastImu else all[|all| - 1].t, phase := Choosing)
    decreases |f.phase.samples|
  {
    var next := Next(f, limit, FeedOne);
    if f.phase.samples == [] {
      assert FeedAll(next, limit, 0) == next;
    } else {
      FeedingIsSteps(next, limit);
    }
  }

  // ---- histories

  /**
   * A frame given to the estimator, the offset it was gated with, how many samples went before it, and the
   * offset the estimator refined it to.
   */
  datatype Fed<F> = Fed(frame: Captured<F>, offset: real, after: nat, refined: real)

  datatype History<F> = History(
    feed: Feed<F>,
    captured: seq<Captured<F>>,
    arrived: seq<Row>,
    samples: seq<Row>,
    frames: seq<Fed<F>>)

  ghost function After<F>(h: History<F>, limit: nat, s: Step<F>): History<F>
    requires limit > 0
  {
    var h' := h.(feed := Next(h.feed, limit, s));
    match s
    case Arrive(row) => if |h.feed.imuQ| >= MAX_IMU then h' else h'.(arrived := h.arrived + [row])
    case Enqueue => if h.feed.offering.None? then h' else h'.(captured := h.captured + [h.feed.offering.value])
    case FeedOne =>
      if h.feed.phase.Feeding? && h.feed.phase.samples != [] then h'.(samples := h.samples + [h.feed.phase.samples[0]])
      else h'
    case Update(refined) =>
      if !h.feed.phase.Updating? then h'
      else h'.(frames := h.frames + [Fed(h.feed.phase.chosen, h.feed.offset, |h.samples|, refined)])
    case _ => h'
  }

  function LastTime(samples: seq<Row>): Time {
    if samples == [] then 0 else samples[|samples| - 1].t
  }

  function InHand<F>(p: Phase<F>): seq<Row> {
    match p
    case Feeding(samples) => samples
    case _ => []
  }

  function InFlight<F>(p: Phase<F>): seq<Captured<F>> {
    match p
    case Updating(chosen) => [chosen]
    case _ => []
  }

  ghost predicate SamplesHold<F>(h: History<F>) {
    && SamplesIn(h.arrived, h.samples, InHand(h.feed.phase), h.feed.imuQ)
    && h.feed.lastImu == LastTime(h.samples) && |h.feed.imuQ| <= MAX_IMU
  }

  ghost predicate SamplesIn(arrived: seq<Row>, samples: seq<Row>, hand: seq<Row>, queued: seq<Row>) {
    arrived == samples + hand + queued
  }

  function Chosen<F>(p: Phase<F>): Option<Captured<F>> {
    match p
    case Updating(chosen) => Some(chosen)
    case _ => None
  }

  ghost predicate FramesHold<F>(h: History<F>, limit: nat) {
    |h.feed.camQ| <= limit && FramesIn(h.captured, h.feed.camQ, Chosen(h.feed.phase), h.frames)
  }

  /** The frames still queued are the newest; the chosen one and the finished ones come before them. */
  ghost predicate FramesIn<F>(captured: seq<Captured<F>>, camQ: seq<Captured<F>>, chosen: Option<Captured<F>>,
                              frames: seq<Fed<F>>) {
    && |camQ| <= |captured| && camQ == captured[|captured| - |camQ|..]
    && Numbered(captured)
    && (chosen.Some? ==> Drawn(captured, chosen.value) && chosen.value.index < |captured| - |camQ|)
    && InOrder(captured, frames, if chosen.Some? then chosen.value.index else |captured| - |camQ|)
  }

  ghost predicate Numbered<F>(captured: seq<Captured<F>>) {
    forall i :: 0 <= i < |captured| ==> captured[i].index == i
  }

  ghost predicate Drawn<F>(captured: seq<Captured<F>>, c: Captured<F>) {
    0 <= c.index < |captured| && captured[c.index] == c
  }

  ghost predicate InOrder<F>(captured: seq<Captured<F>>, frames: seq<Fed<F>>, limit: int) {
    && (forall i :: 0 <= i < |frames| ==> Drawn(captured, frames[i].frame) && frames[i].frame.index < limit)
    && (forall i, j :: 0 <= i < j < |frames| ==> frames[i].frame.index < frames[j].frame.index)
  }

  ghost predicate CountsHold<F>(h: History<F>) {
    var f := h.feed;
    && f.processed == |h.frames|
    && f.framesIn == |h.captured| + (if f.offering.Some? then 1 else 0)
    && (f.offering.Some? ==> f.offering.value.index == |h.captured|)
    && |h.captured| == f.processed + f.dropped + |f.camQ| + |InFlight(f.phase)|
  }

  /** The frame's time plus the offset lay before the last sample fed when it was fed. */
  ghost predicate CoveredBy<F>(fed: Fed<F>, samples: seq<Row>) {
    fed.after <= |samples| && fed.frame.t as real + fed.offset < LastTime(samples[..fed.after]) as real
  }

  ghost predicate GateHolds<F>(h: History<F>) {
    && (h.feed.phase.Updating? ==> h.feed.phase.chosen.t as real + h.feed.offset < LastTime(h.samples) as real)
    && (forall i :: 0 <= i < |h.frames| ==> CoveredBy(h.frames[i], h.samples))
  }

  /** The update thread gives up only when told to, or when no more frames can come. */
  ghost predicate EndHolds<F>(f: Feed<F>) {
    && (f.framesDone ==> f.offering.None?)
    && (f.phase.Finished? && !f.stop ==> f.framesDone && (f.camQ == [] || f.phase.waited > MAX_STALL))
  }

  ghost predicate Sound<F>(h: History<F>, limit: nat) {
    SamplesHold(h) && FramesHold(h, limit) && CountsHold(h) && GateHolds(h) && EndHolds(h.feed)
  }

  lemma SamplesMove(arrived: seq<Row>, samples: seq<Row>, hand: seq<Row>, queued: seq<Row>)
    requires SamplesIn(arrived, samples, hand, queued)
    ensures hand == [] ==> SamplesIn(arrived, samples, queued, [])
    ensures hand != [] ==> SamplesIn(arrived, samples + [hand[0]], hand[1..], queued)
    ensures forall row :: SamplesIn(arrived + [row], samples, hand, queued + [row])
  {
    if hand != [] {
      assert hand == [hand[0]] + hand[1..];
    }
    forall row
      ensures SamplesIn(arrived + [row], samples, hand, queued + [row])
    {
      assert (samples + hand + queued) + [row] == samples + hand + (queued + [row]);
    }
  }

  lemma SamplesKept<F>(h: History<F>, limit: nat, s: Step<F>)
    requires limit > 0 && SamplesHold(h)
    ensures SamplesHold(After(h, limit, s))
  {
    hide SamplesIn;
    SamplesMove(h.arrived, h.samples, InHand(h.feed.phase), h.feed.imuQ);
  }

  lemma CountsKept<F>(h: History<F>, limit: nat, s: Step<F>)
    requires limit > 0 && CountsHold(h)
    ensures CountsHold(After(h, limit, s))
  {
  }

  lemma CoverageKept<F>(fed: Fed<F>, samples: seq<Row>, row: Row)
    requires CoveredBy(fed, samples)
    ensures CoveredBy(fed, samples + [row])
  {
    assert (samples + [row])[..fed.after] == samples[..fed.after];
  }

  lemma GateKept<F>(h: History<F>, limit: nat, s: Step<F>)
    requires limit > 0 && SamplesHold(h) && GateHolds(h)
    ensures GateHolds(After(h, limit, s))
  {
    var h' := After(h, limit, s);
    forall i | 0 <= i < |h'.frames|
      ensures CoveredBy(h'.frames[i], h'.samples)
    {
      if i < |h.frames| {
        if h'.samples != h.samples {
          CoverageKept(h.frames[i], h.samples, h.feed.phase.samples[0]);
        }
      } else {
        assert h.samples[..|h.samples|] == h.samples;
      }
    }
  }

  lemma FramesAfterEnqueue<F>(captured: seq<Captured<F>>, camQ: seq<Captured<F>>, room: seq<Captured<F>>,
                              chosen: Option<Captured<F>>, frames: seq<Fed<F>>, c: Captured<F>)
    requires FramesIn(captured, camQ, chosen, frames) && c.index == |captured|
    requires |room| <= |camQ| && room == camQ[|camQ| - |room|..]
    ensures FramesIn(captured + [c], room + [c], chosen, frames)
  {
    var limit := if chosen.Some? then chosen.value.index else |captured| - |camQ|;
    assert InOrder(captured + [c], frames, limit);
  }

  lemma FramesAfterChoice<F>(captured: seq<Captured<F>>, camQ: seq<Captured<F>>, frames: seq<Fed<F>>)
    requires FramesIn(captured, camQ, None, frames) && camQ != []
    ensures FramesIn(captured, camQ[1..], Some(camQ[0]), frames)
  {
  }

  lemma FramesAfterUpdate<F>(captured: seq<Captured<F>>, camQ: seq<Captured<F>>, chosen: Captured<F>,
                             frames: seq<Fed<F>>, offset: real, after: nat, refined: real)
    requires FramesIn(captured, camQ, Some(chosen), frames)
    ensures FramesIn(captured, camQ, None, frames + [Fed(chosen, offset, after, refined)])
  {
  }

  lemma NewestAreTheEnd<F>(q: seq<Captured<F>>, limit: nat)
    requires limit > 0
    ensures var r := Newest(q, limit); |r| < limit && |r| <= |q| && r == q[|q| - |r|..]
  {
  }

  lemma FramesKeptByEnqueue<F>(h: History<F>, limit: nat)
    requires limit > 0 && FramesHold(h, limit) && CountsHold(h) && h.feed.offering.Some?
    ensures FramesHold(After(h, limit, Enqueue), limit)
  {
    hide FramesIn, Newest;
    NewestAreTheEnd(h.feed.camQ, limit);
    FramesAfterEnqueue(h.captured, h.feed.camQ, Newest(h.feed.camQ, limit), Chosen(h.feed.phase), h.frames,
                       h.feed.offering.value);
  }

  lemma ChoiceOutcome<F>(f: Feed<F>, limit: nat, now: Time, later: Time)
    requires limit > 0 && f.phase.Choosing?
    ensures var r := Next(f, limit, Choose(now, later));
            || (r.camQ == f.camQ && Chosen(r.phase).None?)
            || (f.camQ != [] && r.camQ == f.camQ[1..] && Chosen(r.phase) == Some(f.camQ[0]))
  {
  }

  lemma FramesKeptByChoice<F>(h: History<F>, limit: nat, now: Time, later: Time)
    requires limit > 0 && FramesHold(h, limit) && h.feed.phase.Choosing?
    ensures FramesHold(After(h, limit, Choose(now, later)), limit)
  {
    hide FramesIn, Next;
    ChoiceOutcome(h.feed, limit, now, later);
    if h.feed.camQ != [] {
      FramesAfterChoice(h.captured, h.feed.camQ, h.frames);
    }
  }

  lemma FramesKeptByUpdate<F>(h: History<F>, limit: nat, refined: real)
    requires limit > 0 && FramesHold(h, limit) && h.feed.phase.Updating?
    ensures FramesHold(After(h, limit, Update(refined)), limit)
  {
    hide FramesIn, Newest;
    FramesAfterUpdate(h.captured, h.feed.camQ, h.feed.phase.chosen, h.frames, h.feed.offset, |h.samples|,
                      refined);
  }

  lemma FramesKept<F>(h: History<F>, limit: nat, s: Step<F>)
    requires limit > 0 && FramesHold(h, limit) && CountsHold(h)
    ensures FramesHold(After(h, limit, s), limit)
  {
    hide FramesIn, Newest, CountsHold;
    if s.Enqueue? && h.feed.offering.Some? {
      FramesKeptByEnqueue(h, limit);
    } else if s.Choose? && h.feed.phase.Choosing? {
      FramesKeptByChoice(h, limit, s.now, s.later);
    } else if s.Update? && h.feed.phase.Updating? {
      FramesKeptByUpdate(h, limit, s.refined);
    }
  }

  lemma EndKept<F>(f: Feed<F>, limit: nat, s: Step<F>)
    requires limit > 0 && EndHolds(f)
    ensures EndHolds(Next(f, limit, s))
  {
  }

  lemma StepKeepsSound<F>(h: History<F>, limit: nat, s: Step<F>)
    requires limit > 0 && Sound(h, limit)
    ensures Sound(After(h, limit, s), limit)
  {
    hide SamplesHold, FramesHold, CountsHold, GateHolds, EndHolds;
    SamplesKept(h, limit, s);
    FramesKept(h, limit, s);
    CountsKept(h, limit, s);
    GateKept(h, limit, s);
    EndKept(h.feed, limit, s);
  }

  ghost function Run<F>(offset: real, limit: nat, steps: seq<Step<F>>): (h: History<F>)
    requires limit > 0
    ensures Sound(h, limit)
  {
    if steps == [] then History(Started(offset), [], [], [], [])
    else
      var before := Run(offset, limit, steps[..|steps| - 1]);
      StepKeepsSound(before, limit, steps[|steps| - 1]);
      After(before, limit, steps[|steps| - 1])
  }

  /** Every frame received is processed, dropped, queued, on its way in, or being processed: always. */
  lemma FramesAreConserved<F>(offset: real, limit: nat, steps: seq<Step<F>>)
    requires limit > 0
    ensures var f := Run(offset, limit, steps).feed;
            && f.framesIn == f.processed + f.dropped + |f.camQ| + |InFlight(f.phase)|
                             + (if f.offering.Some? then 1 else 0)
            && |f.camQ| <= limit && |f.imuQ| <= MAX_IMU
  {
    assert Sound(Run(offset, limit, steps), limit);
  }

  /** The estimator sees an in-order selection of the captured frames, each at most once. */
  lemma FramesAreFedInOrder<F>(offset: real, limit: nat, steps: seq<Step<F>>, i: nat, j: nat)
    requires limit > 0 && i < j < |Run(offset, limit, steps).frames|
    ensures var h := Run(offset, limit, steps);
            && 0 <= h.frames[i].frame.index < h.frames[j].frame.index < |h.captured|
            && h.frames[i].frame == h.captured[h.frames[i].frame.index]
            && h.frames[j].frame == h.captured[h.frames[j].frame.index]
  {
    var h := Run(offset, limit, steps);
    assert Sound(h, limit);
    assert Drawn(h.captured, h.frames[i].frame) && Drawn(h.captured, h.frames[j].frame);
  }

  /** IMU rows are fed in order, none lost and none twice: what is not fed yet is still on its way. */
  lemma SamplesAreFedInOrder<F>(offset: real, limit: nat, steps: seq<Step<F>>)
    requires limit > 0
    ensures var h := Run(offset, limit, steps);
            && h.arrived == h.samples + InHand(h.feed.phase) + h.feed.imuQ
            && h.samples <= h.arrived
  {
    var h := Run(offset, limit, steps);
    assert Sound(h, limit);
  }

  /**
   * Gating: when a frame was fed, some sample fed before it was strictly later than the frame's time
   * plus the offset used. The only way to be fed without any sample is to lie before the clock's zero
   * once the offset is added.
   */
  lemma EveryFrameIsCovered<F>(offset: real, limit: nat, steps: seq<Step<F>>, i: nat)
    requires limit > 0 && i < |Run(offset, limit, steps).frames|
    ensures var h := Run(offset, limit, steps);
            var fed := h.frames[i];
            && fed.after <= |h.samples|
            && (if fed.after == 0 then fed.frame.t as real + fed.offset < 0.0
                else fed.frame.t as real + fed.offset < h.samples[fed.after - 1].t as real)
  {
    hide SamplesHold, FramesHold, CountsHold, EndHolds, Run;
    var h := Run(offset, limit, steps);
    assert Sound(h, limit);
    assert CoveredBy(h.frames[i], h.samples);
  }

  /** The offset the estimator had come to after its first `n` frames. */
  function OffsetAfter<F>(offset: real, frames: seq<Fed<F>>, n: nat): real
    requires n <= |frames|
  {
    if n == 0 then offset else frames[n - 1].refined
  }

  /** Each frame is gated with the offset the estimator had come to with the frame before it. */
  ghost predicate OffsetsFollow<F>(offset: real, h: History<F>) {
    && (forall i :: 0 <= i < |h.frames| ==> h.frames[i].offset == OffsetAfter(offset, h.frames, i))
    && h.feed.offset == OffsetAfter(offset, h.frames, |h.frames|)
  }

  lemma {:induction false} OffsetIsTheLatest<F>(offset: real, limit: nat, steps: seq<Step<F>>)
    requires limit > 0
    ensures OffsetsFollow(offset, Run(offset, limit, steps))
  {
    hide Sound, Newest;
    if steps == [] {
    } else {
      OffsetIsTheLatest(offset, limit, steps[..|steps| - 1]);
      StepFollowsOffset(offset, Run(offset, limit, steps[..|steps| - 1]), limit, steps[|steps| - 1]);
    }
  }

  lemma StepFollowsOffset<F>(offset: real, h: History<F>, limit: nat, s: Step<F>)
    requires limit > 0 && OffsetsFollow(offset, h)
    ensures OffsetsFollow(offset, After(h, limit, s))
  {
    hide Newest, Next;
    OffsetOfNext(h.feed, limit, s);
  }

  lemma OffsetOfNext<F>(f: Feed<F>, limit: nat, s: Step<F>)
    requires limit > 0
    ensures Next(f, limit, s).offset == if s.Update? && f.phase.Updating? then s.refined else f.offset
  {
  }

  /**
   * The choice is exact: in every reachable state the update thread takes the oldest frame if and only if the
   * last sample fed is later than the frame's time plus the offset; it ends if and only if it is told to, or
   * no more frames can come and none is left or the stall, counted from the first one, has lasted a second.
   */
  lemma ChoiceIsExact<F>(offset: real, limit: nat, steps: seq<Step<F>>, now: Time, later: Time)
    requires limit > 0 && Run(offset, limit, steps).feed.phase.Choosing?
    ensures var h := Run(offset, limit, steps);
            var f, r := h.feed, Next(h.feed, limit, Choose(now, later));
            var covered := f.camQ != [] && f.camQ[0].t as real + f.offset < LastTime(h.samples) as real;
            var since := if f.stallSince == 0 then now else f.stallSince;
            && (r.phase.Updating? <==> !f.stop && covered)
            && (r.phase.Updating? ==> r.phase.chosen == f.camQ[0] && r.camQ == f.camQ[1..])
            && (r.phase.Finished? <==>
                  f.stop || (!covered && f.framesDone && (f.camQ == [] || later - since > MAX_STALL)))
            && r.stallSince == (if !f.stop && !covered && f.framesDone && f.camQ != [] then since else f.stallSince)
  {
    var h := Run(offset, limit, steps);
    assert SamplesHold(h);
    hide Run, Sound, SamplesHold, LastTime, Next, Feed.Ready;
    ReadyIsCovered(h);
    ChoiceOfReady(h.feed, limit, now, later);
  }

  lemma ReadyIsCovered<F>(h: History<F>)
    requires h.feed.lastImu == LastTime(h.samples)
    ensures h.feed.Ready() <==>
            h.feed.camQ != [] && h.feed.camQ[0].t as real + h.feed.offset < LastTime(h.samples) as real
  {
  }

  lemma ChoiceOfReady<F>(f: Feed<F>, limit: nat, now: Time, later: Time)
    requires limit > 0 && f.phase.Choosing? && (f.Ready() ==> f.camQ != [])
    ensures var r := Next(f, limit, Choose(now, later)); var since := if f.stallSince == 0 then now else f.stallSince;
            && (r.phase.Updating? <==> !f.stop && f.Ready())
            && (r.phase.Updating? ==> r.phase.chosen == f.camQ[0] && r.camQ == f.camQ[1..])
            && (r.phase.Finished? <==>
                  f.stop || (!f.Ready() && f.framesDone && (f.camQ == [] || later - since > MAX_STALL)))
            && r.stallSince == (if !f.stop && !f.Ready() && f.framesDone && f.camQ != [] then since else f.stallSince)
  {
    hide Feed.Ready, Newest;
  }

  // ---- what is lost, and when it ends

  /**
   * Of the frames waiting only the oldest give way to a new one, and only as many as must: in every reachable
   * state the queue then holds the newest of the old frames and the new one, up to the limit, and counts the rest.
   */
  lemma OnlyTheOldestGiveWay<F>(offset: real, limit: nat, steps: seq<Step<F>>)
    requires limit > 0 && Run(offset, limit, steps).feed.offering.Some?
    ensures var f := Run(offset, limit, steps).feed; var r := Next(f, limit, Enqueue);
            var all := f.camQ + [f.offering.value];
            && |r.camQ| == (if |all| <= limit then |all| else limit) && r.camQ == all[|all| - |r.camQ|..]
            && r.dropped == f.dropped + |all| - |r.camQ|
  {
    hide Run;
    EnqueueOutcome(Run(offset, limit, steps).feed, limit);
  }

  lemma FlagsOfNext<F>(f: Feed<F>, limit: nat, s: Step<F>)
    requires limit > 0 && |f.imuQ| <= MAX_IMU
    ensures var r := Next(f, limit, s);
            && (r.stop <==> f.stop || s.StopCapture? || (s.Arrive? && |f.imuQ| == MAX_IMU))
            && (r.framesDone <==> f.framesDone || (s.EndFrames? && f.offering.None?))
  {
    hide Newest, Feed.Ready;
  }

  lemma QueueIsBounded<F>(offset: real, limit: nat, steps: seq<Step<F>>)
    requires limit > 0
    ensures |Run(offset, limit, steps).feed.imuQ| <= MAX_IMU
  {
    assert SamplesHold(Run(offset, limit, steps));
  }

  /** The capture stops when it is told to or the IMU's queue is full, and frames end when the camera thread says so. */
  lemma FlagsAreExact<F>(offset: real, limit: nat, steps: seq<Step<F>>, s: Step<F>)
    requires limit > 0
    ensures var f := Run(offset, limit, steps).feed; var r := Next(f, limit, s);
            && (r.stop <==> f.stop || s.StopCapture? || (s.Arrive? && |f.imuQ| == MAX_IMU))
            && (r.framesDone <==> f.framesDone || (s.EndFrames? && f.offering.None?))
  {
    hide Run, Next;
    QueueIsBounded(offset, limit, steps);
    FlagsOfNext(Run(offset, limit, steps).feed, limit, s);
  }

  /** The rows the IMU thread pushed, in order. */
  function Pushed<F>(steps: seq<Step<F>>): seq<Row> {
    if steps == [] then []
    else
      var last := steps[|steps| - 1];
      Pushed(steps[..|steps| - 1]) + if last.Arrive? then [last.row] else []
  }

  lemma ArrivesUnlessFull<F>(h: History<F>, limit: nat, s: Step<F>)
    requires limit > 0
    ensures After(h, limit, s).arrived
            == h.arrived + if s.Arrive? && |h.feed.imuQ| < MAX_IMU then [s.row] else []
  {
    hide Next;
    assert h.arrived + [] == h.arrived;
  }

  /** No IMU row is lost without an end: unless the capture is stopped every row pushed has arrived, in order. */
  lemma {:induction false} RowsArriveOrTheCaptureStops<F>(offset: real, limit: nat, steps: seq<Step<F>>)
    requires limit > 0
    ensures var h := Run(offset, limit, steps); h.feed.stop || h.arrived == Pushed(steps)
  {
    hide Sound, Next;
    if steps == [] {
    } else {
      var rest, last := steps[..|steps| - 1], steps[|steps| - 1];
      var h := Run(offset, limit, rest);
      RowsArriveOrTheCaptureStops(offset, limit, rest);
      QueueIsBounded(offset, limit, rest);
      FlagsOfNext(h.feed, limit, last);
      ArrivesUnlessFull(h, limit, last);
      assert Run(offset, limit, steps) == After(h, limit, last);
      assert After(h, limit, last).feed == Next(h.feed, limit, last);
      hide After, Run;
    }
  }

  /** Once stopped, the estimator gets no more than the frame it is being given and the rows already taken for it. */
  ghost predicate Stopped<F>(before: History<F>, h: History<F>) {
    && h.feed.stop && h.samples + InHand(h.feed.phase) == before.samples + InHand(before.feed.phase)
    && match h.feed.phase
       case Updating(chosen) => before.feed.phase == h.feed.phase && h.frames == before.frames
       case _ => h.frames == before.frames
                 || (before.feed.phase.Updating? && |h.frames| == |before.frames| + 1
                     && h.frames[..|before.frames|] == before.frames
                     && h.frames[|before.frames|].frame == before.feed.phase.chosen)
  }

  lemma StaysStopped<F>(before: History<F>, h: History<F>, limit: nat, s: Step<F>)
    requires limit > 0 && Stopped(before, h)
    ensures Stopped(before, After(h, limit, s))
  {
    hide Newest, Feed.Ready;
    HandMoves(h.samples, InHand(h.feed.phase));
  }

  lemma HandMoves(samples: seq<Row>, hand: seq<Row>)
    ensures hand != [] ==> samples + [hand[0]] + hand[1..] == samples + hand
  {
    if hand != [] {
      assert hand == [hand[0]] + hand[1..];
    }
  }

  lemma {:induction false} StoppedFeedsNoMore<F>(offset: real, limit: nat, steps: seq<Step<F>>, n: nat)
    requires limit > 0 && n <= |steps| && Run(offset, limit, steps[..n]).feed.stop
    ensures Stopped(Run(offset, limit, steps[..n]), Run(offset, limit, steps))
    decreases |steps|
  {
    hide Sound, After;
    if n == |steps| {
      assert steps[..n] == steps;
    } else {
      hide Stopped;
      var rest := steps[..|steps| - 1];
      assert rest[..n] == steps[..n];
      StoppedFeedsNoMore(offset, limit, rest, n);
      StaysStopped(Run(offset, limit, steps[..n]), Run(offset, limit, rest), limit, steps[|steps| - 1]);
    }
  }

  /** Frames are abandoned only on a stop, or once no more can come and the stall has lasted a second. */
  lemma FramesAreNotAbandoned<F>(offset: real, limit: nat, steps: seq<Step<F>>)
    requires limit > 0 && Run(offset, limit, steps).feed.phase.Finished?
    ensures var f := Run(offset, limit, steps).feed;
            f.stop || (f.framesDone && f.offering.None? && (f.camQ == [] || f.phase.waited > MAX_STALL))
  {
    assert Sound(Run(offset, limit, steps), limit);
  }

  /**
   * The gate does let a frame through before any sample was fed: captured first of all, a frame is fed with
   * none before it exactly when its time plus the offset lies below zero.
   */
  lemma UncoveredFrame<F>(offset: real, limit: nat, frame: F, t: Time, now: Time, refined: real)
    requires limit > 0
    ensures var fed := Run(offset, limit, UncoveredSteps(frame, t, now, refined)).frames;
            if t as real + offset < 0.0 then fed == [Fed(Captured(frame, t, 0), offset, 0, refined)] else fed == []
  {
    hide Run, After;
    var queued := [] + [Capture(frame, t)] + [Enqueue];
    var reached := queued + [Take] + [FeedOne];
    RunStarts<F>(offset, limit);
    RunOne<F>(offset, limit, [], Capture(frame, t));
    RunOne(offset, limit, [] + [Capture(frame, t)], Enqueue);
    RunOne(offset, limit, queued, Take);
    RunOne(offset, limit, queued + [Take], FeedOne);
    RunOne(offset, limit, reached, Choose(now, now));
    RunOne(offset, limit, reached + [Choose(now, now)], Update(refined));
    FirstFrameQueued(offset, limit, frame, t);
    FirstFrameReached(offset, limit, frame, t);
    FirstFrameChosen(offset, limit, frame, t, now, refined);
  }

  function UncoveredSteps<F>(frame: F, t: Time, now: Time, refined: real): seq<Step<F>> {
    [] + [Capture(frame, t)] + [Enqueue] + [Take] + [FeedOne] + [Choose(now, now)] + [Update(refined)]
  }

  lemma RunStarts<F>(offset: real, limit: nat)
    requires limit > 0
    ensures Run<F>(offset, limit, []) == History(Started(offset), [], [], [], [])
  {
  }

  lemma RunOne<F>(offset: real, limit: nat, steps: seq<Step<F>>, a: Step<F>)
    requires limit > 0
    ensures Run(offset, limit, steps + [a]) == After(Run(offset, limit, steps), limit, a)
  {
    hide After, Sound;
    assert (steps + [a])[..|steps|] == steps;
  }

  /** The history with one frame captured, nothing arrived, and the update thread in this phase. */
  function WithOneFrame<F>(offset: real, frame: F, t: Time, phase: Phase<F>): History<F> {
    var c := Captured(frame, t, 0);
    History(Started(offset).(camQ := [c], framesIn := 1, phase := phase), [c], [], [], [])
  }

  lemma FirstFrameQueued<F>(offset: real, limit: nat, frame: F, t: Time)
    requires limit > 0
    ensures After(After(History(Started(offset), [], [], [], []), limit, Capture(frame, t)), limit, Enqueue)
            == WithOneFrame(offset, frame, t, Waiting)
  {
    var c := Captured(frame, t, 0);
    assert Newest<F>([], limit) == [];
    assert [] + [c] == [c];
  }

  lemma FirstFrameReached<F>(offset: real, limit: nat, frame: F, t: Time)
    requires limit > 0
    ensures After(After(WithOneFrame(offset, frame, t, Waiting), limit, Take), limit, FeedOne)
            == WithOneFrame(offset, frame, t, Choosing)
  {
    hide Newest;
  }

  lemma FirstFrameChosen<F>(offset: real, limit: nat, frame: F, t: Time, now: Time, refined: real)
    requires limit > 0
    ensures After(After(WithOneFrame(offset, frame, t, Choosing), limit, Choose(now, now)), limit, Update(refined)).frames
            == if t as real + offset < 0.0 then [Fed(Captured(frame, t, 0), offset, 0, refined)] else []
  {
    hide Newest;
  }

  /**
   * End to end: when the rows that arrived are the first of those the pairing emits, even in the middle of
   * a round, the estimator has been fed a prefix of the batch pairing of the two raw streams, however they
   * and the threads were interleaved.
   */
  lemma EstimatorSeesTheBatchPairing<F>(filter: ImuLowPasses.LowPass, arrivals: seq<Arrival>, offset: real, limit: nat,
                                        steps: seq<Step<F>>)
    requires limit > 0 && Pair(filter, arrivals).Some?
    requires Run(offset, limit, steps).arrived <= Pair(filter, arrivals).value.rows
    ensures var a, g := Conditioned(filter, Accels(arrivals)), Conditioned(filter, Gyros(arrivals));
            Increasing(a) && Run(offset, limit, steps).samples <= Rows(a, g)
  {
    hide Run, Pair, Rows, Conditioned;
    StreamingIsBatch(filter, arrivals);
    SamplesAreFedInOrder(offset, limit, steps);
  }
}
