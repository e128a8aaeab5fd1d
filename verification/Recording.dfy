/**
 * The recorder (src/recording.cpp): producers, one writer thread and the owner that closes it, as atomic
 * steps of a transition system, and the object whose methods are its locked sections.
 *
 * A locked section is one step. That loses nothing: what others may change meanwhile are the failure and
 * finished flags, which only ever move one way, and a section looks at them once, first of all.
 */
module Recorders {
  import opened Basics

  datatype Stream = Accel | Gyro | Camera | Estimate | Features

  datatype Failure = NoFailure | Backlog | Storage | ShutdownTimeout | WriterBusy

  datatype Record = Record(stream: Stream, chunks: seq<seq<Byte>>)

  function Size(chunks: seq<seq<Byte>>): nat {
    if chunks == [] then 0 else Size(chunks[..|chunks| - 1]) + |chunks[|chunks| - 1]|
  }

  function TotalSize(queue: seq<Record>): nat {
    if queue == [] then 0 else Size(queue[0].chunks) + TotalSize(queue[1..])
  }

  lemma {:induction false} TotalSizeAppend(queue: seq<Record>, record: Record)
    ensures TotalSize(queue + [record]) == TotalSize(queue) + Size(record.chunks)
  {
    if queue == [] {
    } else {
      assert (queue + [record])[1..] == queue[1..] + [record];
      TotalSizeAppend(queue[1..], record);
    }
  }

  // ---- the state behind the mutex

  datatype Shelf = Shelf(
    byteLimit: nat,
    recordLimit: nat,
    queue: seq<Record>,
    bytes: nat,
    closing: bool,
    done: bool)
  {
    /** Until the worker is done the byte count is exact, and both limits hold. */
    predicate Valid() {
      && 0 < byteLimit && 0 < recordLimit && bytes <= byteLimit && |queue| <= recordLimit
      && (if done then queue == [] else bytes == TotalSize(queue))
    }

    /** Whether a record of `size` bytes is let in. */
    predicate Admits(size: nat)
      requires bytes <= byteLimit
    {
      !closing && |queue| < recordLimit && size <= byteLimit - bytes
    }

    function Put(record: Record): Shelf {
      this.(queue := queue + [record], bytes := bytes + Size(record.chunks))
    }

    function Take(): Shelf
      requires queue != [] && Size(queue[0].chunks) <= bytes
    {
      this.(queue := queue[1..], bytes := bytes - Size(queue[0].chunks))
    }

    function Clear(): Shelf {
      this.(queue := [], done := true)
    }
  }

  /** The locked sections and the size check of `submit`, on the object itself. */
  class RecordingState {
    const byteLimit: nat
    const recordLimit: nat
    var queue: seq<Record>
    var bytes: nat
    var closing: bool
    var done: bool

    ghost function View(): Shelf
      reads this
    {
      Shelf(byteLimit, recordLimit, queue, bytes, closing, done)
    }

    constructor (byteLimit: nat, recordLimit: nat)
      requires 0 < byteLimit && 0 < recordLimit
      ensures View() == Shelf(byteLimit, recordLimit, [], 0, false, false) && View().Valid()
    {
      this.byteLimit, this.recordLimit := byteLimit, recordLimit;
      queue, bytes, closing, done := [], 0, false, false;
    }

    /** The size of a record, unless it alone exceeds the byte limit; the running total never overflows. */
    method Measure(chunks: seq<seq<Byte>>) returns (size: Option<nat>)
      ensures size == if Size(chunks) <= byteLimit then Some(Size(chunks)) else None
    {
      var total := 0;
      for i := 0 to |chunks|
        invariant total == Size(chunks[..i]) <= byteLimit
      {
        assert chunks[..i + 1][..i] == chunks[..i];
        if |chunks[i]| > byteLimit - total {
          SizeGrows(chunks, i + 1);
          return None;
        }
        total := total + |chunks[i]|;
      }
      assert chunks[..|chunks|] == chunks;
      size := Some(total);
    }

    /** The end of `submit`, under the lock. */
    method Offer(record: Record, size: nat) returns (admitted: bool)
      requires View().Valid() && size == Size(record.chunks) && !done
      modifies this
      ensures View().Valid()
      ensures admitted == old(View().Admits(size))
      ensures View() == if admitted then old(View()).Put(record) else old(View())
    {
      if closing || |queue| >= recordLimit || size > byteLimit - bytes {
        return false;
      }
      TotalSizeAppend(queue, record);
      bytes := bytes + size;
      queue := queue + [record];
      admitted := true;
    }

    /** The worker's section: the oldest record, or None where it leaves its loop. */
    method TakeOldest() returns (record: Option<Record>)
      requires View().Valid() && (closing || queue != []) && !done
      modifies this
      ensures View().Valid()
      ensures record == if old(queue) == [] then None else Some(old(queue)[0])
      ensures View() == if record.None? then old(View()) else old(View()).Take()
    {
      if queue == [] {
        return None;
      }
      var front := queue[0];
      queue := queue[1..];
      var i := 0;
      ghost var before := bytes;
      while i < |front.chunks|
        invariant 0 <= i <= |front.chunks|
        invariant queue == old(queue)[1..] && closing == old(closing) && !done
        invariant bytes == before - Size(front.chunks[..i])
        invariant Size(front.chunks[..i]) <= Size(front.chunks) <= before
      {
        assert front.chunks[..i + 1][..i] == front.chunks[..i];
        SizeGrows(front.chunks, i + 1);
        bytes := bytes - |front.chunks[i]|;
        i := i + 1;
      }
      assert front.chunks[..i] == front.chunks;
      record := Some(front);
    }

    /** The worker's last section. */
    method Finish()
      requires View().Valid()
      modifies this
      ensures View().Valid() && View() == old(View()).Clear()
    {
      queue := [];
      done := true;
    }
  }

  lemma {:induction false} SizeGrows(chunks: seq<seq<Byte>>, n: nat)
    requires n <= |chunks|
    ensures Size(chunks[..n]) <= Size(chunks)
    decreases |chunks| - n
  {
    if n < |chunks| {
      assert chunks[..n + 1][..n] == chunks[..n];
      SizeGrows(chunks, n + 1);
    } else {
      assert chunks[..n] == chunks;
    }
  }
}
