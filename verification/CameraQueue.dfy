/**
 * The handoff between the camera driver's callbacks and the capture thread (src/camera_queue.h): four
 * frames at most, the oldest gives way, and errors and closing end it.
 */
module CameraQueues {
  import opened Basics

  const CAPACITY := 4

  datatype Queue<F, E> = Queue(frames: seq<F>, error: Option<E>, closed: bool, dropped: nat)

  datatype Outcome<F, E> = Threw(error: E) | Nothing | Got(frame: F)

  /** One locked call; `Pop` is what `read` does once its wait is over. */
  datatype Call<F, E> = Reset | Push(frame: F) | Pop | Fail(error: E) | Close

  function Apply<F, E>(q: Queue<F, E>, c: Call<F, E>): (Queue<F, E>, Outcome<F, E>) {
    match c
    case Reset => (Queue([], None, false, 0), Nothing)
    case Push(frame) =>
      (if q.closed then q
       else if |q.frames| == CAPACITY then q.(frames := q.frames[1..] + [frame], dropped := q.dropped + 1)
       else q.(frames := q.frames + [frame]), Nothing)
    case Pop =>
      if q.error.Some? then (q, Threw(q.error.value))
      else if q.frames == [] then (q, Nothing)
      else (q.(frames := q.frames[1..]), Got(q.frames[0]))
    case Fail(error) => (q.(error := if q.error.Some? then q.error else Some(error), frames := []), Nothing)
    case Close => (q.(closed := true, frames := []), Nothing)
  }

  class CameraQueue<F, E> {
    var frames: seq<F>
    var error: Option<E>
    var closed: bool
    var dropped: nat

    ghost function View(): Queue<F, E>
      reads this
    {
      Queue(frames, error, closed, dropped)
    }

    constructor ()
      ensures View() == Queue([], None, true, 0)
    {
      frames, error, closed, dropped := [], None, true, 0;
    }

    method ResetQueue()
      modifies this
      ensures View() == old(Apply(View(), Reset).0)
    {
      frames := [];
      error := None;
      closed := false;
      dropped := 0;
    }

    method PushFrame(frame: F)
      modifies this
      ensures View() == old(Apply(View(), Push(frame)).0)
    {
      if closed {
        return;
      }
      if |frames| == CAPACITY {
        frames := frames[1..];
        dropped := dropped + 1;
      }
      frames := frames + [frame];
    }

    method Read() returns (outcome: Outcome<F, E>)
      modifies this
      ensures (View(), outcome) == old(Apply(View(), Pop))
    {
      if error.Some? {
        return Threw(error.value);
      }
      if frames == [] {
        return Nothing;
      }
      outcome := Got(frames[0]);
      frames := frames[1..];
    }

    method FailWith(e: E)
      modifies this
      ensures View() == old(Apply(View(), Fail(e)).0)
    {
      if error.None? {
        error := Some(e);
      }
      frames := [];
    }

    method CloseQueue()
      modifies this
      ensures View() == old(Apply(View(), Close).0)
    {
      closed := true;
      frames := [];
    }
  }

  // ---- histories

  /**
   * A queue with everything it accepted since the last reset, the positions of the frames it handed
   * out, and how many frames an error or a close threw away.
   */
  datatype Handoff<F, E> = Handoff(queue: Queue<F, E>, accepted: seq<F>, read: seq<int>, cleared: nat)

  ghost function After<F, E>(h: Handoff<F, E>, c: Call<F, E>): Handoff<F, E> {
    var (queue, outcome) := Apply(h.queue, c);
    match c
    case Reset => Handoff(queue, [], [], 0)
    case Push(frame) => h.(queue := queue, accepted := if h.queue.closed then h.accepted else h.accepted + [frame])
    case Pop =>
      if outcome.Got? then h.(queue := queue, read := h.read + [|h.accepted| - |h.queue.frames|])
      else h.(queue := queue)
    case Fail(_) => h.(queue := queue, cleared := h.cleared + |h.queue.frames|)
    case Close => h.(queue := queue, cleared := h.cleared + |h.queue.frames|)
  }

  /** Strictly increasing positions below `limit`. */
  ghost predicate Rising(s: seq<int>, limit: int) {
    (forall i, j :: 0 <= i < j < |s| ==> s[i] < s[j]) && (forall i :: 0 <= i < |s| ==> 0 <= s[i] < limit)
  }

  lemma RisingNone(limit: int)
    ensures Rising([], limit)
  {
  }

  lemma RisingSnoc(s: seq<int>, next: int, limit: int)
    requires Rising(s, next) && 0 <= next < limit
    ensures Rising(s + [next], limit)
  {
  }

  lemma RisingBelow(s: seq<int>, limit: int, higher: int)
    requires Rising(s, limit) && limit <= higher
    ensures Rising(s, higher)
  {
  }

  /** The queue holds the newest accepted frames, and every accepted frame is accounted for. */
  ghost predicate Sound<F, E>(h: Handoff<F, E>) {
    && |h.queue.frames| <= CAPACITY && |h.queue.frames| <= |h.accepted|
    && h.queue.frames == h.accepted[|h.accepted| - |h.queue.frames|..]
    && Rising(h.read, |h.accepted| - |h.queue.frames|)
    && |h.accepted| == |h.read| + h.queue.dropped + h.cleared + |h.queue.frames|
  }

  lemma CallKeepsSound<F, E>(h: Handoff<F, E>, c: Call<F, E>)
    requires Sound(h)
    ensures Sound(After(h, c))
  {
    hide Rising;
    var first := |h.accepted| - |h.queue.frames|;
    if c.Pop? && h.queue.error.None? && h.queue.frames != [] {
      RisingSnoc(h.read, first, first + 1);
    } else if c.Reset? {
      RisingNone(0);
    } else {
      RisingBelow(h.read, first, |After(h, c).accepted| - |After(h, c).queue.frames|);
    }
  }

  ghost function Run<F, E>(calls: seq<Call<F, E>>): (h: Handoff<F, E>)
    ensures Sound(h)
  {
    if calls == [] then Handoff(Queue([], None, true, 0), [], [], 0)
    else
      CallKeepsSound(Run(calls[..|calls| - 1]), calls[|calls| - 1]);
      After(Run(calls[..|calls| - 1]), calls[|calls| - 1])
  }

  lemma NextFrame<F, E>(h: Handoff<F, E>)
    requires Sound(h) && h.queue.error.None? && h.queue.frames != []
    ensures var at := |h.accepted| - |h.queue.frames|;
            && 0 <= at < |h.accepted| && h.queue.frames[0] == h.accepted[at] && |h.accepted| - CAPACITY <= at
            && After(h, Pop).read == h.read + [at]
  {
  }

  /**
   * Over every run: frames come out in order, each at most once, never with more than three newer ones
   * already waiting, and each accepted frame is read, dropped, thrown away or still queued.
   */
  lemma FramesComeOutInOrder<F, E>(calls: seq<Call<F, E>>)
    ensures var h := Run(calls); var next := Apply(h.queue, Pop).1;
            && Rising(h.read, |h.accepted|)
            && |h.accepted| == |h.read| + h.queue.dropped + h.cleared + |h.queue.frames|
            && (next.Got? ==> var at := |h.accepted| - |h.queue.frames|;
                  && |h.accepted| - CAPACITY <= at < |h.accepted| && next.frame == h.accepted[at]
                  && After(h, Pop).read == h.read + [at] && Rising(h.read + [at], |h.accepted|))
  {
    hide Rising, Run, After;
    var h := Run(calls);
    if Apply(h.queue, Pop).1.Got? {
      NextFrame(h);
    }
    var at := |h.accepted| - |h.queue.frames|;
    RisingBelow(h.read, at, |h.accepted|);
    if Apply(h.queue, Pop).1.Got? {
      RisingSnoc(h.read, at, |h.accepted|);
    }
  }

  predicate NeverResets<F, E>(calls: seq<Call<F, E>>) {
    forall i :: 0 <= i < |calls| ==> !calls[i].Reset?
  }

  function ApplyAll<F, E>(q: Queue<F, E>, calls: seq<Call<F, E>>): Queue<F, E> {
    if calls == [] then q else Apply(ApplyAll(q, calls[..|calls| - 1]), calls[|calls| - 1]).0
  }

  /** The first error wins: until a reset every read reports it, whatever is pushed or fails later. */
  lemma {:induction false} TheFirstErrorStays<F, E>(q: Queue<F, E>, error: E, calls: seq<Call<F, E>>)
    requires NeverResets(calls)
    ensures var r, first := ApplyAll(Apply(q, Fail(error)).0, calls), if q.error.Some? then q.error.value else error;
            r.error == Some(first) && Apply(r, Pop).1 == Threw(first)
  {
    if calls == [] {
    } else {
      TheFirstErrorStays(q, error, calls[..|calls| - 1]);
      assert !calls[|calls| - 1].Reset?;
    }
  }

  /** Once closed a queue stays empty until a reset, so reads return nothing or the error. */
  lemma {:induction false} ClosedStaysEmpty<F, E>(q: Queue<F, E>, calls: seq<Call<F, E>>)
    requires NeverResets(calls)
    ensures var r := ApplyAll(Apply(q, Close).0, calls);
            r.closed && r.frames == [] && !Apply(r, Pop).1.Got?
  {
    if calls == [] {
    } else {
      ClosedStaysEmpty(q, calls[..|calls| - 1]);
      assert !calls[|calls| - 1].Reset?;
    }
  }

  function Pushes<F, E>(frames: seq<F>): seq<Call<F, E>> {
    if frames == [] then [] else Pushes(frames[..|frames| - 1]) + [Push(frames[|frames| - 1])]
  }

  /** The last four of them, or all if there are fewer. */
  function Newest<F>(frames: seq<F>): seq<F> {
    if |frames| <= CAPACITY then frames else frames[|frames| - CAPACITY..]
  }

  lemma PushKeepsTheNewest<F, E>(q: Queue<F, E>, all: seq<F>, frame: F)
    requires !q.closed && q.frames == Newest(all)
    ensures Apply(q, Push(frame)).0
            == q.(frames := Newest(all + [frame]),
                  dropped := q.dropped + |Newest(all)| + 1 - |Newest(all + [frame])|)
  {
    if |all| >= CAPACITY {
      assert (all + [frame])[|all| - CAPACITY + 1..] == all[|all| - CAPACITY + 1..] + [frame];
      assert all[|all| - CAPACITY..][1..] == all[|all| - CAPACITY + 1..];
    }
  }

  lemma PushesSnoc<F, E>(q: Queue<F, E>, frames: seq<F>, frame: F)
    ensures ApplyAll(q, Pushes(frames + [frame])) == Apply(ApplyAll(q, Pushes(frames)), Push(frame)).0
  {
    hide Apply;
    assert (frames + [frame])[..|frames|] == frames;
    var calls := Pushes<F, E>(frames);
    assert Pushes<F, E>(frames + [frame]) == calls + [Push(frame)];
    assert (calls + [Push(frame)])[..|calls|] == calls;
  }

  /**
   * Only the oldest give way, and only as many as must: after any frames are pushed into an open queue that
   * nobody reads it holds the newest four of the old and new ones in order, and counts the rest as dropped.
   */
  lemma {:induction false} OnlyTheOldestGiveWay<F, E>(q: Queue<F, E>, frames: seq<F>)
    requires !q.closed && |q.frames| <= CAPACITY
    ensures var all := q.frames + frames;
            ApplyAll(q, Pushes(frames)) == q.(frames := Newest(all), dropped := q.dropped + |all| - |Newest(all)|)
  {
    if frames == [] {
      assert q.frames + frames == q.frames;
    } else {
      hide Apply, ApplyAll, Pushes, Newest;
      var rest, last := frames[..|frames| - 1], frames[|frames| - 1];
      assert rest + [last] == frames && q.frames + rest + [last] == q.frames + frames;
      OnlyTheOldestGiveWay(q, rest);
      PushesSnoc(q, rest, last);
      PushKeepsTheNewest(ApplyAll(q, Pushes(rest)), q.frames + rest, last);
    }
  }

  /**
   * A reset starts afresh: whatever was queued, failed, dropped or closed before, the newest four of the frames
   * pushed after it are there to be read, the oldest of them first, and only the others count as dropped.
   */
  lemma ResetStartsAfresh<F, E>(q: Queue<F, E>, frames: seq<F>)
    ensures var r := ApplyAll(Apply(q, Reset).0, Pushes(frames)); var kept := Newest(frames);
            && r == Queue(kept, None, false, |frames| - |kept|)
            && Apply(r, Pop).1 == if frames == [] then Nothing else Got(kept[0])
  {
    OnlyTheOldestGiveWay(Apply(q, Reset).0, frames);
    assert [] + frames == frames;
  }
}
