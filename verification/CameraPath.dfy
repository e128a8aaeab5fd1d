/**
 * The camera's whole path (src/camera_queue.h, src/openvins_runner/sensor_runner.cpp): the driver's queue,
 * the camera thread that reads it and offers each frame at once, and the estimator's queue, as one system.
 */
module CameraPaths {
  import opened Basics
  import opened CameraQueues
  import Feeds = EstimatorFeeds

  datatype Path<F, E> = Path(driver: Handoff<F, E>, feed: Feeds.History<F>)

  /** `Driver` is a callback's locked call, `Grab` the camera thread's read and what it does with the frame. */
  datatype PathStep<F, E> =
    | Driver(call: Call<F, E>)
    | Grab(t: Time)
    | Estimator(step: Feeds.Step<F>)

  /** A step of the capture; resets come before it, and reads and captures are the camera thread's alone. */
  ghost function Move<F, E>(p: Path<F, E>, limit: nat, s: PathStep<F, E>): Path<F, E>
    requires limit > 0
  {
    match s
    case Driver(call) => if call.Reset? || call.Pop? then p else p.(driver := After(p.driver, call))
    case Grab(t) =>
      if p.feed.feed.offering.Some? || p.feed.feed.framesDone then p
      else
        var read := p.(driver := After(p.driver, Pop));
        (match Apply(p.driver.queue, Pop).1
         case Got(frame) => read.(feed := Feeds.After(p.feed, limit, Feeds.Capture(frame, t)))
         case _ => read)
    case Estimator(step) => if step.Capture? then p else p.(feed := Feeds.After(p.feed, limit, step))
  }

  /** The frame the camera thread has read but not yet queued. */
  function Offered<F>(feed: Feeds.Feed<F>): nat {
    if feed.offering.Some? then 1 else 0
  }

  /** Every frame captured or on offer is the one the driver's queue handed out in that turn. */
  ghost predicate Joined<F, E>(p: Path<F, E>) {
    var q, h := p.driver, p.feed;
    && |q.read| == |h.captured| + Offered(h.feed)
    && (forall k :: 0 <= k < |h.captured| ==> Delivered(q, k, h.captured[k].frame))
    && (h.feed.offering.Some? ==> Delivered(q, |h.captured|, h.feed.offering.value.frame))
  }

  ghost predicate Delivered<F, E>(q: Handoff<F, E>, k: int, frame: F) {
    0 <= k < |q.read| && 0 <= q.read[k] < |q.accepted| && q.accepted[q.read[k]] == frame
  }

  lemma DriverKeepsDelivered<F, E>(q: Handoff<F, E>, call: Call<F, E>, k: int, frame: F)
    requires Delivered(q, k, frame) && !call.Reset?
    ensures Delivered(After(q, call), k, frame)
  {
  }

  lemma DriverKeepsJoined<F, E>(p: Path<F, E>, call: Call<F, E>)
    requires Joined(p) && !call.Reset? && !call.Pop?
    ensures Joined(p.(driver := After(p.driver, call)))
  {
    var h := p.feed;
    hide Delivered;
    forall k | 0 <= k < |h.captured|
      ensures Delivered(After(p.driver, call), k, h.captured[k].frame)
    {
      DriverKeepsDelivered(p.driver, call, k, h.captured[k].frame);
    }
    if h.feed.offering.Some? {
      DriverKeepsDelivered(p.driver, call, |h.captured|, h.feed.offering.value.frame);
    }
  }

  lemma GotIsDelivered<F, E>(q: Handoff<F, E>)
    requires Sound(q) && Apply(q.queue, Pop).1.Got?
    ensures |After(q, Pop).read| == |q.read| + 1
    ensures Delivered(After(q, Pop), |q.read|, Apply(q.queue, Pop).1.frame)
  {
    NextFrame(q);
  }

  lemma GrabKeepsJoined<F, E>(p: Path<F, E>, limit: nat, t: Time)
    requires limit > 0 && Sound(p.driver) && Joined(p)
    ensures Joined(Move(p, limit, Grab(t)))
  {
    hide Delivered, Sound, Apply, CameraQueues.After;
    var h := p.feed;
    if h.feed.offering.None? && !h.feed.framesDone {
      forall k | 0 <= k < |h.captured|
        ensures Delivered(After(p.driver, Pop), k, h.captured[k].frame)
      {
        DriverKeepsDelivered(p.driver, Pop, k, h.captured[k].frame);
      }
      if Apply(p.driver.queue, Pop).1.Got? {
        GotIsDelivered(p.driver);
      } else {
        NothingGot(p.driver);
      }
    }
  }

  lemma NothingGot<F, E>(q: Handoff<F, E>)
    requires !Apply(q.queue, Pop).1.Got?
    ensures After(q, Pop).read == q.read
  {
  }

  lemma EstimatorKeepsJoined<F, E>(p: Path<F, E>, limit: nat, step: Feeds.Step<F>)
    requires limit > 0 && Joined(p) && !step.Capture?
    ensures Joined(p.(feed := Feeds.After(p.feed, limit, step)))
  {
    hide Delivered, Feeds.Newest;
  }

  ghost predicate PathHolds<F, E>(p: Path<F, E>, limit: nat) {
    Sound(p.driver) && Feeds.Sound(p.feed, limit) && Joined(p)
  }

  lemma MoveHolds<F, E>(p: Path<F, E>, limit: nat, s: PathStep<F, E>)
    requires limit > 0 && PathHolds(p, limit)
    ensures PathHolds(Move(p, limit, s), limit)
  {
    hide Joined, Feeds.Sound, CameraQueues.Sound, Apply, CameraQueues.After, Feeds.After;
    match s {
      case Driver(call) =>
        if !call.Reset? && !call.Pop? {
          CallKeepsSound(p.driver, call);
          DriverKeepsJoined(p, call);
        }
      case Grab(t) =>
        CallKeepsSound(p.driver, Pop);
        GrabKeepsJoined(p, limit, t);
        if Apply(p.driver.queue, Pop).1.Got? {
          Feeds.StepKeepsSound(p.feed, limit, Feeds.Capture(Apply(p.driver.queue, Pop).1.frame, t));
        }
      case Estimator(step) =>
        if !step.Capture? {
          Feeds.StepKeepsSound(p.feed, limit, step);
          EstimatorKeepsJoined(p, limit, step);
        }
    }
  }

  function Beginning<F, E>(offset: real): Path<F, E> {
    Path(Handoff(Queue([], None, false, 0), [], [], 0), Feeds.History(Feeds.Started(offset), [], [], [], []))
  }

  lemma BeginningHolds<F, E>(offset: real, limit: nat)
    requires limit > 0
    ensures PathHolds<F, E>(Beginning(offset), limit)
  {
  }

  /** A capture: the driver's queue has just been reset and the estimator's threads start. */
  ghost function Capture<F, E>(offset: real, limit: nat, steps: seq<PathStep<F, E>>): (p: Path<F, E>)
    requires limit > 0
    ensures PathHolds(p, limit)
  {
    if steps == [] then BeginningHolds<F, E>(offset, limit); Beginning(offset)
    else
      var before := Capture(offset, limit, steps[..|steps| - 1]);
      MoveHolds(before, limit, steps[|steps| - 1]);
      Move(before, limit, steps[|steps| - 1])
  }

  /** Two frames fed one after the other, by their places among the frames the driver delivered. */
  lemma FedInDriverOrder<F, E>(p: Path<F, E>, limit: nat, i: nat, j: nat)
    requires PathHolds(p, limit) && i < j < |p.feed.frames|
    ensures var q, a, b := p.driver, p.feed.frames[i].frame, p.feed.frames[j].frame;
            && 0 <= a.index < b.index < |q.read|
            && 0 <= q.read[a.index] < q.read[b.index] < |q.accepted|
            && a.frame == q.accepted[q.read[a.index]] && b.frame == q.accepted[q.read[b.index]]
  {
    var h, a, b := p.feed, p.feed.frames[i].frame, p.feed.frames[j].frame;
    assert Feeds.Drawn(h.captured, a) && Feeds.Drawn(h.captured, b) && a.index < b.index;
    hide Feeds.Sound;
    assert Delivered(p.driver, a.index, h.captured[a.index].frame);
    assert Delivered(p.driver, b.index, h.captured[b.index].frame);
    assert Rising(p.driver.read, |p.driver.accepted| - |p.driver.queue.frames|);
  }

  /**
   * Through both drop-oldest queues, over every capture: the estimator sees an in-order selection of the
   * frames the driver delivered, each at most once.
   */
  lemma FramesPassBothQueuesInOrder<F, E>(offset: real, limit: nat, steps: seq<PathStep<F, E>>, i: nat, j: nat)
    requires limit > 0 && i < j < |Capture(offset, limit, steps).feed.frames|
    ensures var p := Capture(offset, limit, steps);
            var q, a, b := p.driver, p.feed.frames[i].frame, p.feed.frames[j].frame;
            && 0 <= a.index < b.index < |q.read|
            && 0 <= q.read[a.index] < q.read[b.index] < |q.accepted|
            && a.frame == q.accepted[q.read[a.index]] && b.frame == q.accepted[q.read[b.index]]
  {
    hide Capture, PathHolds;
    FedInDriverOrder(Capture(offset, limit, steps), limit, i, j);
  }

  /** Every frame the driver delivered is dropped or thrown away by one queue, waiting in one, or with the estimator. */
  lemma EveryFrameIsSomewhere<F, E>(offset: real, limit: nat, steps: seq<PathStep<F, E>>)
    requires limit > 0
    ensures var p := Capture(offset, limit, steps); var q, f := p.driver, p.feed.feed;
            |q.accepted| == q.queue.dropped + q.cleared + |q.queue.frames|
                            + Offered(f) + f.dropped + |f.camQ| + |Feeds.InFlight(f.phase)| + f.processed
  {
    var p := Capture(offset, limit, steps);
    assert PathHolds(p, limit);
    hide Capture;
  }
}
